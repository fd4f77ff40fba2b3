# A verified model of storrent

storrent is a BitTorrent client with an in-memory piece store, one actor per torrent and per
peer, and its own Kademlia DHT. This Dafny project models its three cores and states what they
keep in every run:

- **the DHT's routing table** (`dht/dht.c`): the buckets are always a partition of the id space
  into aligned power-of-two blocks, splitting loses no node, and the nodes chosen for a reply
  are the closest ones;
- **the torrent and its peers** (`peer/`, `tor/`): two ledgers, of requests in flight and of
  pieces available, hold between actors that are joined only by queues of events, in every
  interleaving; the same is done for readers' requests and the channels they wait on;
- **the piece store** (`tor/piece/`, `bitmap/`): no step touches a piece while its hash is
  computed, so what is read has been verified; eviction meets its targets and nothing more.

Around them stand the webseed writer, the file layout, chunk arithmetic with its 32-bit
wrap-around, and the wire codec.

`dafny verify dfyconfig.toml` checks everything.

## How it is laid out

Where the program updates objects in place, the model is a class whose methods are proved
against functions on values; where it is concurrent, the model is a state machine whose steps
are those functions, and the theorems are about every run of it.

| files | what they hold |
|---|---|
| `Arith`, `Options`, `ByteBits`, `Ids` | arithmetic, optional values, bits of a byte, 160-bit ids with the XOR metric |
| `IdBytes` | the byte loops of dht.c on ids, refined to `Ids` |
| `DhtPartition`, `DhtTable`, `DhtRouting` | buckets as a partition; contents and invariants of a table; the table as an object |
| `Nearest`, `DhtClosest` | bounded sorted insertion on numbers; searches and replies |
| `Bitmap`, `Requests` | byte-level bitmaps as sets; a peer's request queue |
| `Geometry` | pieces, chunks and their numbers |
| `Swarm` | a torrent, its peers and its writers as one system of steps |
| `PeerRuns` | the requests of one peer, over every sequence of messages and events |
| `InFlight`, `InFlightRuns`, `ShortChunk` | the in-flight ledger, per peer and over runs; the chunk it does not cover |
| `Availability`, `AvailabilityRuns` | the availability ledger, per peer and over runs |
| `TorrentCounters`, `PeerMachine` | the handlers as code, refined to `Swarm` |
| `PieceStore`, `PieceRuns`, `PieceMemory` | the store as a system of steps; its runs; the store as an object |
| `Eviction`, `FairShare` | eviction in one torrent, and over all of them |
| `WebseedWriter`, `Requested`, `FileLayout`, `Wire` | the remaining components |

SHA-1 is a function parameter. Channels are sequences, time is an integer that is passed in, and
what the network, the allocator or the remote end may do is a parameter of each step.

## Model

| member | source | states |
|---|---|---|
| `IdBytes.IdCmp` | dht/dht.c:410-415 | comparing the bytes of two ids is comparing the numbers they denote |
| `IdBytes.XorCmp` | dht/dht.c:462-479 | the byte loop decides which of two ids is closer to a third in the XOR metric |
| `IdBytes.LowBit` | dht/dht.c:418-434 | the byte and bit scan finds the last set bit, or -1 exactly for the zero id |
| `IdBytes.SetBit` | dht/dht.c:563-576 | the patch of one byte sets exactly that bit of the id |
| `Ids.PrefixIsDistance` | dht/dht.c:462-479 | sharing a k-bit prefix with an id is the same as being within 2^(160-k) of it |
| `DhtPartition.DepthFromBounds` | dht/dht.c:418-434 | in a partition, the last set bits of two neighbouring bounds alone give the depth of the block between them |
| `DhtPartition.FindIsTheBucket` | dht/dht.c:483-505 | find_bucket returns a bucket if and only if the id is in its range: every id is in exactly one |
| `DhtPartition.BucketIsPrefix` | dht/dht.c:483-488 | a bucket holds exactly the ids that share its first `depth` bits |
| `DhtPartition.MiddleIsMidpoint` | dht/dht.c:563-576 | bucket_middle yields the exact midpoint of a bucket's range |
| `DhtPartition.CutPartition` | dht/dht.c:755-795 | splitting a bucket at its middle gives a partition into aligned power-of-two blocks again |
| `DhtPartition.CutMembership` | dht/dht.c:755-795 | splitting moves ids only between the two halves of the split bucket |
| `DhtTable.CutGood` | dht/dht.c:755-795 | splitting keeps every invariant of the table: ranges, counts, distinct ids, own id absent |
| `DhtTable.CutFind` | dht/dht.c:755-795 | after a split, an id of another bucket is found in that same bucket |
| `DhtTable.InsertGood` | dht/dht.c:735-752 | inserting into a bucket with room keeps every invariant and adds just that node |
| `DhtTable.DeepestBucket` | dht/dht.c:563-576 | a bucket too deep to have a middle covers one id only |
| `DhtRouting.RoutingTable.constructor` | dht/dht.c:1770-1800 | a new table is one empty bucket that covers the whole id space and satisfies the invariants |
| `DhtRouting.RoutingTable.FindBucket` | dht/dht.c:490-505 | the walk along the list returns the one bucket whose range holds the id |
| `DhtRouting.RoutingTable.BucketMiddle` | dht/dht.c:563-576 | computes the midpoint, and fails exactly when the bucket holds a single id |
| `DhtRouting.RoutingTable.SplitBucketHelper` | dht/dht.c:755-795 | cuts the bucket in two and hands back all its nodes, if and only if it is ours, can be cut, and the allocation succeeds |
| `DhtRouting.RoutingTable.InsertNode` | dht/dht.c:735-752 | inserts into the node's own bucket if it has room, and otherwise names the bucket to split |
| `DhtRouting.RoutingTable.SplitBucket` | dht/dht.c:797-842 | each old node is kept once or freed once; a freed one belongs to a full bucket that is not ours, or an allocation failed; terminates |
| `DhtRouting.RoutingTable.ReinsertAll` | dht/dht.c:811-842 | the re-insertion loop conserves the nodes, never makes our own bucket shallower, keeps full foreign buckets full, and terminates |
| `DhtRouting.RoutingTable.Reinsert` | dht/dht.c:818-839 | one round conserves the nodes and either disposes of the node or deepens our own bucket |
| `DhtRouting.RoutingTable.NewNode` | dht/dht.c:846-977 | the table stays good; the node is recorded with what was confirmed of it, or is absent; another goes only if it was bad, lost its place in a full foreign bucket, or memory ran out; the retry terminates |
| `DhtRouting.RoutingTable.TryNewNode` | dht/dht.c:856-976 | one pass records the node, finds no place for it, or retries with our own bucket deeper |
| `DhtRouting.RoutingTable.LookUp` | dht/dht.c:871-890 | looking in the id's bucket finds the node if and only if the table has it |
| `DhtRouting.RoutingTable.PingDubious` | dht/dht.c:919-941 | reports a dubious node if and only if one is not good, and picks the first such node not pinged for 15 seconds |
| `DhtRouting.RoutingTable.FindBad` | dht/dht.c:901-916 | finds the first node that may be overwritten, or none if there is none |
| `DhtRouting.RoutingTable.Refresh` | dht/dht.c:873-888 | a known node is renewed in place, by what was confirmed of it |
| `DhtRouting.RoutingTable.Overwrite` | dht/dht.c:901-916 | a bad node gives its place to the new one |
| `DhtRouting.RoutingTable.AddNode` | dht/dht.c:962-976 | with room, the node is added if and only if the allocation succeeds |
| `DhtRouting.RoutingTable.Full` | dht/dht.c:918-960 | our own bucket is split for a retry if and only if all its nodes are good and there is memory; otherwise the first stale node is pinged and the address cached, and nothing else changes |
| `DhtRouting.RoutingTable.ExpireBuckets` | dht/dht.c:982-1011 | exactly the nodes with fewer than four unanswered pings remain, and the invariants hold |
| `Nearest.OfferAllSmallest` | dht/dht.c:1039-1097 | bounded insertion of any list of distances holds, sorted and without duplicates, the k smallest of all offered |
| `Nearest.SmallestUnique` | dht/dht.c:1039-1097 | there is only one such list |
| `Nearest.OrderIrrelevant` | dht/dht.c:1039-1097 | so neither the order nor the repetition of the offers matters |
| `DhtClosest.InsertSorted` | dht/dht.c:1039-1097 | the shift in a fixed array is that insertion, by XOR distance; a known id keeps its record, and all other entries stay |
| `DhtClosest.Search.InsertSearchNode` | dht/dht.c:1039-1097 | after any calls, the candidates are the fourteen closest of all ids offered; the new one has its address, reply time and token recorded; other families are ignored |
| `DhtClosest.ClosestOffer` | dht/dht.c:1039-1097 | inserting one more id keeps a list the closest of all offered |
| `DhtClosest.InsertClosestNode` | dht/dht.c:2650-2695 | the reply's eight nodes are offered the new one |
| `DhtClosest.BufferClosestNodes` | dht/dht.c:2697-2708 | all good nodes of a bucket are offered, and no others; every entry is a good node with its own address, or was there before |
| `DhtClosest.BucketIsNear` | dht/dht.c:2725-2735 | every id of the target's bucket is closer to the target than any id outside it |
| `DhtClosest.SelectedSmallest` | dht/dht.c:2710-2748 | the selection is the eight closest of the good nodes of three buckets, however few they hold |
| `DhtClosest.SelectedIsClosest` | dht/dht.c:2710-2748 | if the target's bucket has eight good nodes, looking at three buckets gives the eight closest good nodes of the table |
| `DhtClosest.SendClosestNodes` | dht/dht.c:2710-2748 | the selection as code: the closest good nodes of three buckets, each with its own address, and the eight closest of the whole table if the target's bucket has eight |
| `DhtClosest.ClosestMeaning` | dht/dht.c:1039-1097 | spells out "closest": ids offered, distinct, sorted, and any other id is farther than a full list |
| `Bitmap.Bitmap.Set` | bitmap/bitmap.go:42-53 | adds one member, growing the bytes if needed |
| `Bitmap.Bitmap.Reset` | bitmap/bitmap.go:55-60 | removes one member |
| `Bitmap.Bitmap.SetMultiple` | bitmap/bitmap.go:72-81 | adds all numbers below n |
| `Bitmap.All` | bitmap/bitmap.go:96-116 | true if and only if the first n bits are set and the rest of the last byte is clear |
| `Bitmap.Count` | bitmap/bitmap.go:118-128 | counts the members |
| `Bitmap.AllAgreesWithCount` | bitmap/bitmap.go:96-128 | for a bitmap whose members lie below n, the All test and the Count test agree |
| `Bitmap.Len` | bitmap/bitmap.go:130-142 | one more than the highest member, 0 if there is none |
| `Bitmap.EqualValue` | bitmap/bitmap.go:144-171 | true if and only if the two bitmaps have the same members |
| `Requests.Requests.Cancel` | peer/requests/requests.go:74-88 | marks a sent request once, and touches nothing else |
| `Requests.Requests.DelAny` | peer/requests/requests.go:90-142 | removes the request from the list it is in, and says which |
| `Requests.Requests.Enqueue` | peer/requests/requests.go:144-154 | appends a request that is in neither list; refuses any other |
| `Requests.Requests.Dequeue` | peer/requests/requests.go:156-166 | takes the oldest request out of queue and bitmap |
| `Requests.Requests.EnqueueRequest` | peer/requests/requests.go:168-177 | appends to the sent list; its panic is not reached |
| `Requests.Requests.Clear` | peer/requests/requests.go:180-200 | empties the queue, or both lists, and calls back once for each request |
| `Requests.Requests.Expire` | peer/requests/requests.go:202-228 | looks at each sent request once in spite of swap deletion: drops exactly those cancelled before t1, cancels exactly the others sent before t0 |
| `Geometry.FromChunkExact` | peer/peer.go:162-167 | with 32-bit wrap-around, fromChunk yields the true offset if and only if the guard `BeginExact` holds |
| `Geometry.RoundTrip` | peer/peer.go:154-167 | toChunk undoes fromChunk if and only if that guard holds |
| `Geometry.RoundTripBack` | peer/peer.go:154-167 | fromChunk undoes toChunk on every aligned offset that satisfies it |
| `Geometry.SmallTorrentExact` | peer/peer.go:162-167 | the guard holds for chunks below 2^32 bytes |
| `Geometry.PowerOfTwoExact` | peer/peer.go:162-167 | and for every chunk if the chunks per piece divide 2^18 |
| `Geometry.PowerOfTwoPieces` | peer/peer.go:162-167 | which they do for every piece size that is a power of two |
| `Geometry.ThreeChunkPiecesBreak` | peer/peer.go:162-167 | a torrent with three chunks per piece for which it fails |
| `Geometry.ChunkSizesSum` | peer/peer.go:169-176 | the chunk sizes add up to the torrent's length |
| `Geometry.PieceLengthsSum` | tor/piece/piece.go:189-197 | the piece lengths add up to the torrent's length |
| `InFlight.ExactTorrents` | peer/peer.go:162-167 | the ledger's condition on chunk numbers holds for torrents up to 4 GiB and for piece sizes that are powers of two |
| `InFlight.MoveW` | peer/peer.go:494-508 | every move of a peer conserves what the torrent has counted for a full-size chunk, over inbox, lists and events, if the replies it accepts fill one chunk; a short last chunk only loses; shutdown leaves nothing held |
| `InFlight.ReplyEvent` | tor/tor.go:402-408 | an accepted reply that fills one chunk releases exactly that chunk, and one for the short last chunk releases nothing |
| `InFlight.ReplyExactIff` | peer/peer.go:880-896 | an accepted reply to a request for a full-size chunk keeps every count if and only if it fills one chunk |
| `PeerRuns.PeerLedger` | peer/peer.go:331-350 | in every sequence of events and messages, replies of any length included, and for every chunk: the requests handled are the TorData and TorDrop events emitted for it, plus one if it is still held; after shutdown nothing is held |
| `PeerRuns.PieceCounts` | peer/peer.go:870-912 | a reply to a held request answers it once, whatever its length and however much the store takes |
| `PeerRuns.MoveCounts` | peer/peer.go:472-539 | every move keeps the account of every chunk |
| `PeerRuns.DropNamesIff` | peer/peer.go:697-700 | a drop names its own chunk if and only if the guard on chunk numbers holds |
| `InFlightRuns.WroteW` | tor/writer.go:35-46 | data accepted from a webseed hands its chunks from the writer to the TorData event |
| `InFlightRuns.ClosedW` | tor/writer.go:142-152 | closing a writer hands all it has left to the TorDrop event |
| `InFlightRuns.NoteListCount` | tor/tor.go:743-751 | a counter grows by the occurrences of its chunk until it sticks at 255 |
| `InFlightRuns.RequestExactIff` | tor/tor.go:678-692 | a request keeps an exact counter exact if and only if the counter does not saturate |
| `InFlightRuns.WebseedExactIff` | tor/tor.go:1059-1062 | starting a webseed keeps an exact counter exact if and only if the chunk is outside its range or the counter is below 255 |
| `InFlightRuns.NoUnderflow` | tor/tor.go:686-691 | the counter that the next TorData or TorDrop decrements is never zero |
| `InFlightRuns.StepKeeps` | tor/tor.go:382-428 | every step of torrent, peers, queues and writers keeps the ledger, if no counter it increments saturates and an accepted reply fills one chunk |
| `InFlightRuns.InFlightLedger` | tor/tor.go:382-428 | in every run, the counter of a full-size chunk is the number of requests held anywhere, stranded ones included, and the underflow branch is not taken |
| `ShortChunk.ShortChunkSticks` | tor/tor.go:402-408 | a run that ends with nothing held and nothing on its way, and the counter of the short last chunk at 1 |
| `Availability.MoveAgrees` | peer/peer.go:827-851 | every move of a peer emits events that only add what is absent and remove what is present, and whose net is its bitmap |
| `Availability.ShutdownAgrees` | peer/peer.go:331-350 | the events of a shutdown take back exactly the bitmap, before the Goaway |
| `AvailabilityRuns.NoteBitmapAt` | tor/tor.go:461-464 | a bitmap event changes each counter of its pieces once, and no other |
| `AvailabilityRuns.StepKeeps` | tor/tor.go:461-466 | every step keeps counters, beliefs and bitmaps in agreement |
| `AvailabilityRuns.AvailabilityLedger` | tor/tor.go:656-674 | in every run, whatever the remote ends send, a counter is the number of peers believed to have the piece, and belief plus pending events is the peer's bitmap |
| `AvailabilityRuns.ShutdownIsNet` | peer/peer.go:331-350 | a peer that is gone and whose events are handled counts nowhere |
| `AvailabilityRuns.NeverClamped` | tor/tor.go:656-674 | with at most 65535 peers at a time, neither the overflow nor the underflow branch is taken |
| `TorrentCounters.Counters.NoteInFlight` | tor/tor.go:676-692 | the update in place is the counter's step, saturation included |
| `TorrentCounters.Counters.Land` | tor/tor.go:382-428 | the handlers' loop releases exactly the range of the event, and cancels where requests are left |
| `TorrentCounters.Counters.Ask` | tor/tor.go:742-751 | the loop counts each requested chunk as often as it occurs |
| `TorrentCounters.Counters.MarkWebseed` | tor/tor.go:1059-1062 | the loop marks exactly the chunks a webseed range touches |
| `TorrentCounters.Counters.NoteOne` | tor/tor.go:655-674 | the array grows on demand, and one counter takes its step |
| `TorrentCounters.Counters.NoteAll` | tor/tor.go:461-464 | the loop over the bytes of a bitmap notes each member once |
| `PeerMachine.Machine.AcceptList` | peer/peer.go:494-508 | each requested chunk is queued, or dropped if the peer lacks the piece or has the request |
| `PeerMachine.Machine.Cancel` | peer/peer.go:761-789 | a sent request is only marked, an unsent one is dropped |
| `PeerMachine.Machine.CancelAll` | peer/peer.go:532-539 | cancels every chunk of a piece |
| `PeerMachine.Machine.ChokeMessage` | peer/peer.go:810-816 | drops every queued request, and the sent ones too unless the peer is Fast |
| `PeerMachine.Machine.RejectMessage` | peer/peer.go:948-960 | drops the sent request, if there is one |
| `PeerMachine.Machine.PieceMessage` | peer/peer.go:870-912 | answers a held request by TorData if the store took all of it, by TorDrop otherwise |
| `PeerMachine.Machine.HaveMessage` | peer/peer.go:827-837 | announces a piece that is new, closes on one out of range |
| `PeerMachine.Machine.BitfieldMessage` | peer/peer.go:838-851 | takes the old bitmap back before it announces the new one; closes on an overlong one |
| `PeerMachine.Machine.HaveAllMessage` | peer/peer.go:969-986 | the same for a seed, once the number of pieces is known |
| `PeerMachine.Machine.HaveNoneMessage` | peer/peer.go:987-997 | takes the bitmap back |
| `PeerMachine.Machine.DontHaveMessage` | peer/peer.go:1108-1123 | takes one piece back if it was there |
| `PeerMachine.Machine.MetadataComplete` | peer/peer.go:474-493 | announces a seed's bitmap, or closes on an inconsistent one |
| `PeerMachine.Machine.SendNext` | peer/peer.go:1145-1185 | sends the oldest queued request, or drops it if the peer lost the piece or the write failed |
| `PeerMachine.Machine.ExpireRequests` | peer/peer.go:439-470 | drops exactly the requests cancelled before t1, each once |
| `PeerMachine.Machine.ShutDown` | peer/peer.go:331-338 | drops everything held, takes the bitmap back, says goodbye |
| `PieceStore.FilledBytes` | tor/piece/piece.go:278-300 | AddData never overwrites a stored chunk, and a chunk is stored afterwards if and only if it was before or its bytes were offered, which it then holds |
| `PieceStore.StepKeeps` | tor/piece/piece.go:238-395 | every atomic step keeps: chunks in range, busy pieces whole and hashed by exactly one job over their own bytes, complete pieces with the right hash |
| `PieceRuns.CompleteIsVerified` | tor/piece/piece.go:311-353 | in every interleaving, a complete piece has its length and its expected hash |
| `PieceRuns.ReadsAreVerified` | tor/piece/piece.go:206-222 | in every interleaving, what ReadAt returns is found at that place in bytes with the expected hash |
| `PieceRuns.BusyUntouched` | tor/piece/piece.go:334-352 | in every interleaving, no step but the end of its own Finalise changes or frees a busy piece |
| `PieceRuns.FinishFindsBusy` | tor/piece/piece.go:75-80 | so setState finds the state it expects and the hash is that of the bytes in place |
| `PieceRuns.StepDrift` | tor/piece/piece.go:356-395 | a step moves the count as it moves the number of pieces with memory, except a Del that resumes on a piece freed meanwhile, which puts it off by one |
| `PieceRuns.CountIsExact` | tor/piece/piece.go:356-395 | in every run, the count is the number of pieces with memory less the number of such resumptions |
| `PieceRuns.CountIsAllocated` | tor/piece/piece.go:356-395 | so the count is right after a run if and only if there was none, and is then not negative |
| `PieceRuns.WaitingDelMiscounts` | tor/piece/piece.go:361-373 | a run in which a Del that waited frees a piece twice and the count reaches -1 |
| `PieceRuns.TestsAgree` | tor/piece/piece.go:304-331 | on every piece of the store, AddData's test for completeness and Finalise's agree |
| `PieceRuns.AddAnswers` | tor/piece/piece.go:238-306 | AddData's answer is what peers and writers assume: whole chunks, or up to the end of the piece |
| `PieceMemory.Copy` | tor/piece/piece.go:278-300 | the copying loop takes exactly the accepted bytes and fills exactly the chunks that were missing |
| `PieceMemory.AddPeerTo` | tor/piece/piece.go:224-235 | adds a peer once, and never the peer 0 |
| `PieceMemory.Pieces.AddData` | tor/piece/piece.go:238-306 | the code of the step, with all its refusals; reports completeness |
| `PieceMemory.Pieces.SetState` | tor/piece/piece.go:75-80 | changes the state of one piece; the panic is its precondition |
| `PieceMemory.Pieces.FinaliseStart` | tor/piece/piece.go:311-337 | marks the piece busy if and only if it is incomplete, whole and not deleted, and hands out its bytes |
| `PieceMemory.Pieces.FinaliseEnd` | tor/piece/piece.go:342-352 | marks the piece complete, or frees it, and returns the peers that contributed |
| `PieceMemory.Pieces.Free` | tor/piece/piece.go:376-392 | the second half of del: memory, bitmap, peers and state are reset |
| `PieceMemory.Pieces.Evict` | tor/piece/piece.go:356-364 | del without force: frees a piece that has memory and is not busy, and says whether it was complete |
| `PieceMemory.Pieces.Clear` | tor/piece/piece.go:498-505 | Del frees every piece up to the first busy one, where it waits, and marks the store deleted at the end |
| `PieceMemory.Pieces.ReadAt` | tor/piece/piece.go:206-222 | the code of the read |
| `PieceMemory.Pieces.Hole` | tor/piece/piece.go:405-436 | finds exactly the first maximal run of missing chunks at or after the offset, up to the piece's end, or reports that there is none |
| `PieceMemory.FirstHoleUnique` | tor/piece/piece.go:405-436 | there is only one such run |
| `Eviction.StrictWeakOrder` | tor/piece/piece.go:457-474 | the comparison of two regimes is a strict weak order |
| `Eviction.OrderMeaning` | tor/piece/piece.go:457-474 | it puts pieces unused for two hours first, the commonest of them first, and the others by last use |
| `Eviction.SweptCalls` | tor/piece/piece.go:479-494 | the callback is called once for each complete piece that goes, and for nothing else |
| `Eviction.SweptInOrder` | tor/piece/piece.go:479-494 | if a piece goes, no evictable piece before it in the order is left |
| `Eviction.ExpireReachesTarget` | tor/piece/piece.go:447-495 | with no busy piece, Expire ends within the target and deletes no more than it must |
| `Eviction.ExpireInOrder` | tor/piece/piece.go:447-495 | no piece used in the last 7200 seconds goes while an older one with memory remains |
| `Eviction.Expire` | tor/piece/piece.go:476-495 | the loop over the sorted pieces is that sweep |
| `FairShare.SomeAreBig` | tor/tor.go:1795-1806 | above the low mark there are torrents, and some exceed their share: no division by zero |
| `FairShare.SecondIsFairer` | tor/tor.go:1796-1809 | the second share is at least the first |
| `FairShare.Plan` | tor/tor.go:1783-1809 | the three answers of Expire by the marks, and the share it computes |
| `FairShare.PassMeetsLowMark` | tor/tor.go:1783-1824 | on stores at rest, the pass brings the total to the low mark or below and leaves torrents within their share alone |
| `WebseedWriter.TilesCoverOnce` | tor/writer.go:35-46 | consecutive ranges cover every offset of the whole exactly once |
| `WebseedWriter.Writer.constructor` | tor/writer.go:22-26 | a new writer has delivered nothing |
| `WebseedWriter.Writer.Feed` | tor/writer.go:35-46 | what is offered to the store at an offset are the stream's bytes for it; one TorData event per accepted write |
| `WebseedWriter.Writer.Write` | tor/writer.go:53-90 | takes as much as fits the range; what the store accepts goes out as one event and the rest is buffered, never more than remains |
| `WebseedWriter.Writer.ReadFrom` | tor/writer.go:93-137 | the same over any sequence of reads; it panics, before anything changes, if and only if more than 32768 bytes are buffered when it is called |
| `WebseedWriter.SliceInRange` | tor/writer.go:109-114 | the slice a round reads into is in range if and only if no more than 32768 bytes are buffered |
| `WebseedWriter.Overfill` | tor/writer.go:53-90 | a write of any length that the store refuses is all buffered |
| `WebseedWriter.OverfullPanics` | tor/writer.go:93-137 | so a write of more than 32768 bytes followed by ReadFrom panics |
| `WebseedWriter.Writer.Close` | tor/writer.go:142-152 | the TorData ranges and the final TorDrop tile the original range |
| `Requested.RequestLedger` | tor/requests.go:26-71 | in every run, the priorities stored for a piece, with the events on their way, are what readers hold, and a release finds its entry |
| `Requested.ChannelLedger` | tor/requests.go:26-52 | in every run, a channel handed out is stored and open, or closed, never both |
| `Requested.StepKeeps` | tor/tor.go:631-653 | every step of readers, queue and torrent keeps both ledgers |
| `Requested.FinishCloses` | tor/requests.go:97-109 | when a piece is done, the channel waited on is closed |
| `Requested.RequestedPieces.Add` | tor/requests.go:26-43 | stores the priority, and hands out an open channel if one is wanted |
| `Requested.RequestedPieces.Delete` | tor/requests.go:45-51 | forgets the piece and closes its channel, which was open |
| `Requested.RequestedPieces.Del` | tor/requests.go:55-71 | removes one entry of that priority; true if and only if the piece is forgotten |
| `Requested.RequestedPieces.Done` | tor/requests.go:97-109 | closes the channel, once, and forgets a piece nobody requests |
| `Requested.RequestedPieces.DelIdlePiece` | tor/requests.go:120-128 | forgets a piece without priorities |
| `Requested.RequestedPieces.DelIdle` | tor/requests.go:112-116 | forgets exactly the pieces without priorities, in any order |
| `Requested.PieceReader.Request` | tor/reader.go:117-157 | asks for the new chunks, keeps those that were taken, then releases exactly the old ones |
| `FileLayout.Lay` | tor/torfile.go:228-243 | each file starts where the lengths before it add up to, whatever their signs; a file without a path is an error |
| `FileLayout.LaidIsLayout` | tor/torfile.go:228-243 | whatever the files contain, each starts where the one before ends, and the total is the torrent's length |
| `FileLayout.LayoutIff` | tor/torfile.go:228-243 | the result is a layout of some contents if and only if no length is negative |
| `FileLayout.FileInTorrent` | tor/torfile.go:229-243 | a file's bytes are found in the torrent at the file's offset |
| `FileLayout.FileChunks` | tor/tor.go:966-999 | for any number of files, empty ones included, and for a torrent without a list of files, the slices lie in their files and read one after the other are the range |
| `Wire.RoundTrip` | protocol/reader.go:60-353 | reading what was written gives the message back, or hands the bencode library its own bytes, and consumes exactly the message, whatever follows |
| `Wire.RoundTripIff` | protocol/writer.go:89-224 | among all messages Write sends, exactly those within the limit and under our own subtypes come back |
| `Wire.StreamRoundTrip` | protocol/reader.go:60-353 | repeated reading over everything written returns the list of messages, to the last byte |
| `Wire.Sink.Write` | protocol/writer.go:89-224 | the writer's code puts out the encoding of every message |
| `Wire.Sink.SendMessage` | protocol/writer.go:15-44 | length, type and the three parts of the body, in that order |
| `Wire.Sink.SendExtended` | protocol/writer.go:83-85 | an extended message: its subtype, then its payload |
| `Wire.Sink.SendMessage3` | protocol/writer.go:72-81 | three big-endian words after length and type |
| `Wire.Source.Extended` | protocol/reader.go:215-346 | extended messages, with the wrap-around of the length; a bencoded payload is cut out for the library, and only ut_metadata insists on all of it |
| `Wire.Source.Read` | protocol/reader.go:60-353 | the reader's code computes the decoding and consumes what it says, on every input |

## Left out

- InFlightRuns.InFlightLedger: for the torrent's short last chunk only an inequality is stated, because the TorData handler rounds the length down and never releases it (`ShortChunk.ShortChunkSticks`). It assumes that a reply the store takes whole fills one chunk (`InFlight.ReplyExactIff` says this is exact), that no counter saturates when it is incremented (`RequestExactIff` and `WebseedExactIff` say when one does), and that chunk numbers survive 32-bit arithmetic (`Geometry.RoundTrip`).
- PeerRuns.PeerLedger: starts with the metadata known, and assumes that chunk numbers survive 32-bit arithmetic, which `PeerRuns.DropNamesIff` shows to be needed.
- PieceMemory.Pieces.AddData: piece memory is a sequence that is replaced, not an array that is written through; the aliasing between a piece and the slice Finalise hashes is stated in `PieceStore.JobsOk` instead.
- Eviction.Expire: the sort is represented by its result, any permutation sorted by the comparison; the library's sorting algorithm is not modelled.
- FairShare.Plan: integers are unbounded, so a memory mark above 2^63 / 7 is outside the model.
- Wire.Source.Read: how the bencode library parses a payload, and what is consumed when it fails, is not modelled.
- DhtRouting.RoutingTable.NewNode: replies, tokens, storage of announced peers and all sending are outside the model; the martian and blacklist tests are a parameter, and the bucket's `next` pointers are positions in a sequence.
- DhtRouting.RoutingTable.BucketMiddle: works on ids as sequences of bits; the loops over the bytes of an id are `IdBytes.IdCmp`, `IdBytes.LowBit` and `IdBytes.SetBit`, each proved against the same functions on bits.
- Requested.PieceReader.Request: which chunks a reader wants depends on rates and is a parameter; release on closing a reader at piece 0 is not claimed.
- Scheduling by rate, choking, unchoking, uploads, peer exchange, metadata exchange, trackers, HTTP, FUSE, encryption and the bencode parser.
- Delivery of a torrent's events to a dead torrent, when events are discarded.
