# Verified models of the rqbit core

This project models, in Dafny, the parts of the rqbit BitTorrent client whose correctness is
hardest to see by reading, and proves what they promise for every input and every run. Code that
updates state in place is modelled by classes and methods with loops, proved against specification
functions; code that only computes is modelled by functions and lemmas.

- **DHT routing table** (`NodeId`, `Buckets`, `BucketInsert`, `RoutingTable`). The bucket vector is
  seen as a tree whose leaves cut the 160-bit id space into aligned blocks. `add_node` refines an
  insertion into a set; every split is safe; iteration is in id order; the vector never outgrows 315
  entries. `RoutingTable.size` counts replacements too, so it is the node count plus those.
- **Piece scheduler** (`Lengths`, `PieceCounters`, `ChunkTracker`, `DownloadOrder`, `PieceTracker`,
  `PieceCompletion`). The cached counters equal recomputation, and the picker is complete under every
  order setting. Every wanted piece stays queued, in flight, in check or held back, with two
  exceptions, each with its exact condition and a run: a pause and a resume lose the pieces whose last
  chunk has arrived and whose verdict has not, unless they are queued or held back; and so does a hash
  check that ends in a read error while soft recovery is off, which is the default. The comment that
  a piece is in exactly one state does not hold (a reselection can queue an in-flight piece); what
  holds is that had pieces are never queued. Per-file byte counters stay right exactly when no empty
  file lies between two files that share the completed piece, because the walk over the files stops
  there, and the piece is new, because a had one is counted again.
- **File walk** (`FlatFiles`, `FileOps`, `PieceCheck`). The files are one flat array of bytes:
  reads, writes and piece hashes touch exactly the bytes they should. The bit of every piece in whose
  files no read failed is exact, whatever fails elsewhere. That a set bit means matching bytes rests on
  an injective hash, and on every expected digest being that of some whole piece.
- **Bencode** (`BencodeNumbers`, `BencodeValue`, `BencodeParse`, `BencodeSerializer`,
  `BencodeDeserializer`). Printing and parsing are inverse, parsing is local, and the error context
  is the first four open keys. The integer parser follows the library behind it: a lone sign is
  zero, and numbers wrap around.
- **Peer read buffer** (`DoubleBuf`, `PeerMessages`, `ReadBuf`). The ring buffer is a queue of bytes;
  the messages depend on the byte stream alone. An extended message without a body is asked for one
  more byte although it is complete, so it is never delivered.
- **Relocation** (`FileTree`, `FileSystem`, `MovePath`, `MergePlaces`, `MergeDir`, `RelocatePlan`,
  `Relocate`, `RelocateReport`). Any step may fail, and the metadata of any set of paths may be
  unreadable; such a path seems to be free. No content is lost or overwritten, except that of a file
  at a target that cannot be read, where the system cannot be asked to replace nothing; a run shows
  this. Then only that file is gone: all others are still tracked, each replacement costs at most one
  file, and a file is gone only if it came by such a place. When nothing fails the places at which
  something is replaced are a function of the tree, the plan, the unreadable paths and the listing
  order, and so is where each file ends; there is an error exactly when a move cannot be made, and
  without one the report is right exactly when every file ends at its target and none was replaced. In
  every run of a plan in which no two files are registered at one path, none at a directory that holds
  another, no missing one at or above the place of another, and no folder is merged into one that
  contains it, it is said exactly which files are found where they are reported: a file whose metadata
  cannot be read is taken for missing and reported at its target while it stays. Each of these
  conditions has an example that breaks it and is reported wrong.
- **Event log** (`EventLog`, `EventFiles`). The segments stay within the cap, and they hold the last
  lines without a gap exactly when the budget has room for a whole segment, or none at all. A rotation
  or an append that fails loses nothing that it would have kept, and after a line that was written in
  part the log goes on. A rotation that stopped in the middle of its renames is different: every
  later one stops at the gap it left and makes that wider, which costs one more of the renamed
  segments each time, and the line that was to be appended. It works again exactly when the log has
  outgrown its budget so far that nothing past the gap is kept. Opening the log again removes exactly
  the segments that had been renamed. A run that loses all rotated segments but one is exhibited.
- **Orphan scan and dates** (`OwnedSet`, `DirScan`, `DirSummary`, `OrphanScan`, `OrphanReport`,
  `CivilDate`). The scan reports nothing that is used, nothing twice, and exactly those unused entries
  whose readable part is old and free of symlinks; the rest is counted by reason. It is cut short only
  when its budget or its list of items is full. Two things a reader would not expect: a recent file
  whose metadata cannot be read does not keep its folder from being reported, and a summary that runs
  out of budget counts for what it has met, so a folder can be reported that holds recent files. The
  date conversion is right on every day.
- **Adoption** (`AdoptSample`, `Adopt`). A missing file is adopted exactly when it has one candidate
  whose sampled pieces do not contradict it. Planned renames never collide, and their order does not
  matter. They are carried out by a rename that overwrites behind a check of the metadata: nothing is
  lost unless a target has come to be there since and cannot be read, of which a run is given.

Input that comes from outside is a parameter or an arbitrary choice that the proofs quantify over:
clock readings, peers' bytes and how they are cut into reads, hash functions (taken as injective
where a comparison of digests stands for a comparison of contents), file-system failures, paths whose
metadata cannot be read, listing order, and names of temporary files, which are assumed to be free.

## Model

| member | source | states |
|---|---|---|
| NodeId.ComputeSplitStartEnd | crates/dht/src/routing_table.rs:143-172 | the two halves of an aligned block are adjacent and cover it, and the three debug assertions hold exactly when it has at least two bits |
| NodeId.SetBitEffect | crates/librqbit_core/src/hash_id.rs:41-60 | writing a bit of an id gives it the value, and keeps the bits above it and the bits below it |
| NodeId.GenerateRandomId | crates/dht/src/routing_table.rs:132-141 | the generated id shares the leading bits of the block it is drawn for, so it lies inside the block, and its low bits are the random ones |
| Buckets.SortByIdSorts | crates/dht/src/routing_table.rs:247-366 | sorting a bucket of distinct ids gives a strictly sorted permutation |
| Buckets.FindTipCovers | crates/dht/src/routing_table.rs:204-220 | the descent for an id ends in a leaf of the tree whose block contains it |
| Buckets.LeavesPartition | crates/dht/src/routing_table.rs:204-366 | exactly one leaf contains any given id: the leaves partition the id space |
| Buckets.StoredWhereFound | crates/dht/src/routing_table.rs:204-240 | a node is stored somewhere in the tree exactly when it is stored in the leaf the descent finds |
| Buckets.ContentsSorted | crates/dht/src/routing_table.rs:196-202 | the leaves read left to right give the ids in strictly ascending order |
| Buckets.SplitsBound | crates/dht/src/routing_table.rs:312-365 | a tree over a block has at most `bits - 3` splits, and none when the block does not contain our own id |
| BucketInsert.NineIdsNeedFourBits | crates/dht/src/routing_table.rs:247-366 | a block with eight distinct ids and a ninth in its range has at least four bits |
| BucketInsert.SplitIsSafe | crates/dht/src/routing_table.rs:143-172 | when the loop splits, `bits - 1` does not underflow and the assertions on the halves hold |
| BucketInsert.SplitVecKeeps | crates/dht/src/routing_table.rs:312-365 | a split keeps the stored nodes and their order, adds one split, and the descent goes on in the half the code steps to |
| BucketInsert.AddedOk | crates/dht/src/routing_table.rs:247-366 | adding to a leaf with room adds exactly that node to the stored set and keeps the tree well formed |
| BucketInsert.BadReplacedOk | crates/dht/src/routing_table.rs:247-366 | replacing a bad node exchanges exactly these two nodes in the stored set |
| BucketInsert.CrowdedWhenSelfLeaves | crates/dht/src/routing_table.rs:247-366 | in a full bucket whose block does not contain our own id, all eight ids share a prefix with the new one that ours does not, which is when it is turned away |
| RoutingTables.PartitionNodes | crates/dht/src/routing_table.rs:312-365 | the bucket is cut in two at the boundary, in order, with every node on its side |
| RoutingTables.BucketTree.GetLeaf | crates/dht/src/routing_table.rs:204-220 | returns the one leaf whose block contains the id |
| RoutingTables.BucketTree.InsertIntoLeaf | crates/dht/src/routing_table.rs:247-366 | the loop ends; the result says what happened to the stored set (already there, one node added, one bad node exchanged, nothing), each exactly under its condition on the bucket, the capacity and our own id; the tree stays well formed and `size` the node count |
| RoutingTables.BucketTree.AddNode | crates/dht/src/routing_table.rs:242-245 | the same refinement of a set, from any well-formed tree, never above the maximum size |
| RoutingTables.BucketTree.UpdateNode | crates/dht/src/routing_table.rs:222-240 | finds a node exactly when its id is stored and changes that node alone |
| RoutingTables.HasIdInLeaf | crates/dht/src/routing_table.rs:204-240 | an id is stored exactly when the leaf for it holds it |
| RoutingTables.BucketTreeIterator.Next | crates/dht/src/routing_table.rs:104-130 | each call yields the next leaf from the left, and the iteration ends after the last |
| RoutingTables.IterNodes | crates/dht/src/routing_table.rs:196-202 | iteration yields every stored node once, in strictly ascending id order |
| RoutingTables.VectorBound | crates/dht/src/routing_table.rs:312-365 | however many inserts were made, the vector has at most 315 entries |
| RoutingTables.RoutingTable.AddNode | crates/dht/src/routing_table.rs:521-533 | the insert of the bucket tree; `size` stays the node count plus the number of replacements |
| RoutingTables.RoutingTable.MarkOutgoingRequest | crates/dht/src/routing_table.rs:534-542 | true exactly for a stored id, whose node alone is marked; otherwise nothing changes |
| RoutingTables.RoutingTable.MarkResponse | crates/dht/src/routing_table.rs:543-551 | true exactly for a stored id, whose node alone is marked; otherwise nothing changes |
| RoutingTables.RoutingTable.MarkError | crates/dht/src/routing_table.rs:552-560 | true exactly for a stored id, whose node alone is marked; otherwise nothing changes |
| RoutingTables.RoutingTable.MarkLastQuery | crates/dht/src/routing_table.rs:561-568 | true exactly for a stored id, whose node alone is marked; otherwise nothing changes |
| TorrentLengths.PieceInterval | crates/librqbit_core/src/lengths.rs:131-149 | each piece is a non-empty interval of the torrent, and they follow one another up to its end |
| TorrentLengths.ChunkRangeInside | crates/librqbit_core/src/lengths.rs:220-230 | the chunk ranges of the pieces follow one another without a gap and lie inside the bitfield |
| TorrentLengths.InRangeIsOverlap | crates/librqbit_core/src/lengths.rs:161-174 | a piece is in a file's range exactly when the file holds some of its bytes |
| PieceCounters.HnsMeaning | crates/librqbit/src/chunk_tracker.rs:58-70 | needed bytes are among the selected ones, so `progress` never underflows, and `finished` means that every selected piece is had |
| PieceCounters.HnsGain | crates/librqbit/src/chunk_tracker.rs:320-335 | gaining a piece moves exactly its length from needed to had |
| PieceCounters.FileCompleteIffAllPieces | crates/librqbit/src/chunk_tracker.rs:426-457 | the recomputed bytes of a file reach its length exactly when all its pieces are had |
| ChunkTrackers.ComputeSelectedPieces | crates/librqbit/src/chunk_tracker.rs:131-148 | a piece is selected exactly when a wanted file holds some of it |
| ChunkTrackers.ComputeChunkHaveStatus | crates/librqbit/src/chunk_tracker.rs:75-102 | the chunk bits of every piece are set exactly if the piece is had |
| ChunkTrackers.ChunkTracker.Create | crates/librqbit/src/chunk_tracker.rs:158-185 | refused exactly when the bitfields differ in length; otherwise the pieces that are selected and not had are queued, and all counters are in sync |
| ChunkTrackers.ChunkTracker.RecalculatePerFileBytes | crates/librqbit/src/chunk_tracker.rs:187-199 | every file's counter becomes the bytes of it that are had |
| ChunkTrackers.ChunkTracker.MarkPieceBrokenIfNotHave | crates/librqbit/src/chunk_tracker.rs:268-283 | a piece that is not had loses its chunks and is queued; a had piece is untouched |
| ChunkTrackers.ChunkTracker.MarkPieceDeferred | crates/librqbit/src/chunk_tracker.rs:287-296 | a piece that is not had loses its chunks and leaves the queue; a had piece is untouched |
| ChunkTrackers.ChunkTracker.MarkPieceDownloaded | crates/librqbit/src/chunk_tracker.rs:320-335 | the piece is had and not queued, and the cached totals equal recomputation again |
| ChunkTrackers.ChunkTracker.MarkPiecesMissing | crates/librqbit/src/chunk_tracker.rs:300-318 | the pieces are forgotten with their chunks and no others, the selected ones are queued, all counters are recomputed, and the number of pieces that were had is returned |
| ChunkTrackers.ChunkTracker.MarkChunkDownloaded | crates/librqbit/src/chunk_tracker.rs:350-374 | a chunk that fits sets its own bit; the piece is reported complete exactly when this was its last missing chunk |
| ChunkTrackers.ChunkTracker.UpdateOnlyFiles | crates/librqbit/src/chunk_tracker.rs:376-420 | afterwards a piece is queued exactly if it is wanted and was queued, or newly wanted and not had; only the newly queued ones lose their chunks |
| ChunkTrackers.CountersMeaning | crates/librqbit/src/chunk_tracker.rs:58-70 | in every reachable state the cached totals do not underflow and say finished exactly when they should |
| ChunkTrackers.FileFinishedMeaning | crates/librqbit/src/chunk_tracker.rs:426-457 | with counters in sync, a file's counter equals its length exactly when the file is finished |
| DownloadOrder.FilePieceOrderPermutes | crates/librqbit/src/download_order.rs:195-213 | under every setting the order lists each piece of the file exactly once |
| DownloadOrder.DefaultIsHistorical | crates/librqbit/src/file_info.rs:15-26 | the default order is first piece, last piece, then the rest in order |
| DownloadOrder.SizeOrderSorted | crates/librqbit/src/download_order.rs:217-259 | files come by size, equal ones in torrent order |
| DownloadOrder.RoundRobinIsComplete | crates/librqbit/src/download_order.rs:217-259 | interleaving the files visits exactly the pieces that going file by file visits |
| DownloadOrder.ComputePieceOrder | crates/librqbit/src/download_order.rs:217-259 | under every setting the order lists each piece of the non-padding files exactly once |
| PieceTrackers.NaturalOrderComplete | crates/librqbit/src/chunk_tracker.rs:236-262 | skipping finished files never skips a queued piece, when every file has a priority and no counter is ahead of what is had |
| PieceTrackers.PieceTracker.constructor | crates/librqbit/src/piece_tracker.rs:88-95 | a tracker for any chunks: what is selected, not had, not queued and not held back is what it starts with as lost |
| PieceTrackers.PieceTracker.IntoChunks | crates/librqbit/src/piece_tracker.rs:106-112 | every in-flight piece that is not had goes back to the queue |
| PieceTrackers.PauseAndResume | crates/librqbit/src/torrent_state/live/mod.rs:1209-1231 | a pause and a resume lose exactly the wanted pieces in hash check that are neither queued nor held back |
| PieceTrackers.VerdictLostByPause | crates/librqbit/src/torrent_state/live/mod.rs:2410-2483 | from any state in which such a piece is in flight, a run after which it is wanted, not had, and nowhere |
| PieceTrackers.PieceLostByReadError | crates/librqbit/src/torrent_state/live/mod.rs:2420-2428 | from any state in which such a piece is in flight, a run after which it is nowhere, also when the peer has been released |
| PieceTrackers.PieceTracker.AcquirePiece | crates/librqbit/src/piece_tracker.rs:125-169 | steals from a ten times slower peer, else reserves the first wanted piece, else steals from a three times slower one; a steal is passed over only when nobody is slow enough or the slowest piece is locked; nothing is available only if no piece can be reserved; no wanted piece is lost |
| PieceTrackers.PieceTracker.TrySteal | crates/librqbit/src/piece_tracker.rs:185-223 | takes over the slowest piece that is slow enough to be stolen, or changes nothing; when there was such a piece, because the slowest one is locked |
| PieceTrackers.PieceTracker.TakeInflight | crates/librqbit/src/piece_tracker.rs:232-235 | an in-flight piece leaves the map for its hash check, with its elapsed time |
| PieceTrackers.PieceTracker.CheckFails | crates/librqbit/src/torrent_state/live/mod.rs:2420-2428 | a check that ends in a read error: the piece is nowhere afterwards exactly if soft recovery is off and it is wanted and was not queued, reserved or held back in the meantime |
| PieceTrackers.PieceTracker.MarkPieceHashOk | crates/librqbit/src/piece_tracker.rs:238-242 | the piece is had and dequeued even if it was queued during its hash check |
| PieceTrackers.PieceTracker.MarkPieceHashFailed | crates/librqbit/src/piece_tracker.rs:243-247 | the piece is queued again unless it is had |
| PieceTrackers.PieceTracker.DeferPiece | crates/librqbit/src/piece_tracker.rs:248-256 | the piece leaves queue and map and is held back; nothing is lost |
| PieceTrackers.PieceTracker.ReleasePiecesOwnedBy | crates/librqbit/src/piece_tracker.rs:257-272 | exactly the pieces of that peer leave the map and are queued, unless had |
| PieceTrackers.PieceTracker.UpdateOnlyFiles | crates/librqbit/src/piece_tracker.rs:304-312 | reselecting files keeps every wanted piece queued, in flight, in check or held back |
| PieceTrackers.NothingWantedMeansNothingQueued | crates/librqbit/src/piece_tracker.rs:125-169 | when a request finds nothing to reserve, no queued piece of a non-padding file is held by the peer, for an explicit order that lists all pieces, or for priorities for all files and no counter ahead |
| PieceCompletion.OnPieceCompleted | crates/librqbit/src/torrent_state/live/mod.rs:1284-1306 | the walk advances the counters of the run of files it reaches and reports those that became complete |
| PieceCompletion.AllTouchedIffNoGap | crates/librqbit/src/torrent_state/live/mod.rs:1294-1300 | the walk reaches every file of the piece exactly when no empty file lies between two of them |
| PieceCompletion.SyncedAfterCompletion | crates/librqbit/src/torrent_state/live/mod.rs:1294-1306 | the counters stay in sync exactly when the piece is new and no empty file is in the way, or it is had and no file holds any of it |
| PieceCompletion.CountedTwice | crates/librqbit/src/torrent_state/live/mod.rs:1294-1306 | counting a had piece again puts the counters out of sync whenever a file holds some of it |
| PieceCompletion.NotAheadAfterCompletion | crates/librqbit/src/torrent_state/live/mod.rs:1294-1306 | counting a new piece never puts a counter ahead of what is had, empty files or not |
| PieceCompletion.EmptyFileStopsTheWalk | crates/librqbit/src/torrent_state/live/mod.rs:1294-1306 | a torrent whose counters go out of sync whatever they were |
| PieceCompletion.CompletePiece | crates/librqbit/src/torrent_state/live/mod.rs:1284-1306 | marking a piece and counting it keeps the scheduler's invariants, the counters exactly under that condition, and none gets ahead |
| FileOperations.WriteChunk | crates/librqbit/src/file_ops.rs:340-392 | a successful write changes exactly the bytes of the range outside padding; a failed one changes nothing outside it |
| FileOperations.WrittenFlat | crates/librqbit/src/file_ops.rs:340-392 | on complete files a write is an update of the flat array |
| FileOperations.ReadChunk | crates/librqbit/src/file_ops.rs:293-338 | the buffer receives exactly the bytes of the flat array from the offset on, as far as the torrent reaches; too small a buffer is refused |
| FileOperations.ReadBackWhatWasWritten | crates/librqbit/src/file_ops.rs:293-392 | reading a written range gives the written bytes back, with zeros in padding |
| PieceChecks.UpdateHashFromFile | crates/librqbit/src/file_ops.rs:46-73 | the hash is fed exactly the bytes of the file's range |
| PieceChecks.CheckPiece | crates/librqbit/src/file_ops.rs:216-291 | the verdict is that of hashing exactly the piece's slice of the flat array |
| PieceChecks.VerdictIsRight | crates/librqbit/src/file_ops.rs:97-214 | the verdict of the single pass is right when nothing was skipped, and never wrongly positive for an injective hash and expected digests that are those of whole pieces |
| PieceChecks.InitialCheck | crates/librqbit/src/file_ops.rs:97-214 | a set bit means the piece was read and matches, for an injective hash and expected digests that are those of whole pieces; the bit of each piece in whose files no read failed is that of the single-piece check; it stops only for a pause, a missing hash or a layout that does not fit |
| BencodeNumbers.FromRadix10OfDecimal | crates/bencode/src/deserialize.rs:83-97 | parsing the decimal form of a length gives it back and stops at its end |
| BencodeNumbers.FromRadix10SignedOfDecimal | crates/bencode/src/deserialize.rs:72-81 | parsing the decimal form of an integer gives it back and stops at its end |
| BencodeParsing.RoundTrip | crates/bencode/src/deserialize.rs:222-236 | parsing a printed value followed by any bytes gives the value and exactly those bytes if it is within the depth limit, the depth error otherwise |
| BencodeParsing.ParsesIffWithinLimit | crates/bencode/src/deserialize.rs:99-109 | a printed value parses exactly when its nesting is within the limit |
| BencodeParsing.PrintIsPrefixFree | crates/bencode/src/serialize.rs:36-139 | two printed values that start the same buffer are equal |
| BencodeParsing.DictPrintsInKeyOrder | crates/bencode/src/serialize.rs:130-138 | a dictionary prints its entries in the one strictly increasing order of its keys |
| BencodeParsing.ParseAnyLocal | crates/bencode/src/deserialize.rs:225-236 | the bytes a parse consumed give the same value in front of any other bytes |
| BencodeParsing.ParseAppend | crates/bencode/src/deserialize.rs:127-143 | bytes after a parsed value change nothing but what is left over |
| BencodeParsing.RawBytesAreTheValue | crates/bencode/src/deserialize.rs:541-556 | the raw bytes kept next to a value are what it was parsed from, and parse to it alone |
| BencodeParsing.FromBytesOfPrint | crates/bencode/src/deserialize.rs:113-125 | a printed value is accepted whole, and extra bytes are reported by their number |
| BencodeSerialization.InsertEntry | crates/bencode/src/serialize.rs:130-132 | keeps the keys strictly increasing and adds just the entry |
| BencodeSerialization.SortEntries | crates/bencode/src/serialize.rs:130-132 | the same entries with strictly increasing keys |
| BencodeSerialization.SerializeAlone | crates/bencode/src/serialize.rs:118-128 | a value serialized into a buffer of its own is its printed form |
| BencodeSerialization.BencodeSerializer.Serialize | crates/bencode/src/serialize.rs:56-139 | appends the printed form, whatever order a map yields its keys in, and leaves the prefix flag as it was |
| BencodeDeserialization.TrailRightIff | crates/bencode/src/deserialize.rs:83-97 | the key trail is right on the whole way back up exactly when at most 259 keys were open, four slots and a counter up to 255 |
| BencodeDeserialization.BencodeDeserializer.ParseByteString | crates/bencode/src/deserialize.rs:83-97 | parses a byte string; a key is added to the open keys and the trail still shows the first four |
| BencodeDeserialization.BencodeDeserializer.NextKey | crates/bencode/src/deserialize.rs:490-502 | the end of the dictionary, or a key that is open from then on |
| BencodeDeserialization.BencodeDeserializer.NextValue | crates/bencode/src/deserialize.rs:504-515 | the value of the innermost key, which is closed again on success only |
| BencodeDeserialization.BencodeDeserializer.DeserializeAny | crates/bencode/src/deserialize.rs:225-236 | refines the parsing function with its errors; success restores depth and open keys, failure leaves exactly the keys that enclose the failing place |
| BencodeDeserialization.DeserializeFromBytes | crates/bencode/src/deserialize.rs:113-143 | the whole buffer as one value, or the error with the first four keys of the path to it |
| DoubleBufs.DoubleBufIsOne | crates/peer_binary_protocol/src/double_buf.rs:115-141 | two slices behave as their concatenation |
| DoubleBufs.ContiguousIsFront | crates/peer_binary_protocol/src/double_buf.rs:98-105 | a contiguous view exists exactly when the bytes do not straddle the split |
| PeerMessages.FrameMonotone | crates/peer_binary_protocol/src/lib.rs:337-361 | more bytes never change a decoded message or an error, and only reduce a shortage |
| PeerMessages.ProjectedIsStable | crates/peer_binary_protocol/src/extended/ut_metadata.rs:161-181 | any header read off a parsed value is read the same with more bytes behind it |
| PeerMessages.SplitDoesNotMatter | crates/peer_binary_protocol/src/lib.rs:337-464 | decoding from two slices is decoding their concatenation, or a request to join them that is made only when both hold something |
| ReadBuffers.RingAdvance | crates/librqbit/src/read_buf.rs:25-30 | moving the start consumes from the front |
| ReadBuffers.FilledAndUnfilledPartition | crates/librqbit/src/read_buf.rs:103-138 | every byte of the buffer is either filled or free to be written |
| ReadBuffers.DecidedIff | crates/librqbit/src/read_buf.rs:141-202 | a read delivers or rejects a message exactly when the frame has arrived, fits the buffer, and is not an extended message without a body |
| ReadBuffers.BufferSizeDoesNotMatter | crates/librqbit/src/read_buf.rs:141-202 | while no frame exceeds the buffer, its size plays no part |
| ReadBuffers.ReadBuf.Advance | crates/librqbit/src/read_buf.rs:115-117 | drops that many bytes from the front, or all when there are fewer |
| ReadBuffers.ReadBuf.UnfilledIoSlices | crates/librqbit/src/read_buf.rs:124-138 | the two stretches are inside the buffer and are what is not filled |
| ReadBuffers.ReadBuf.ReadVectored | crates/librqbit/src/read_buf.rs:181-191 | whatever number of bytes the connection delivers, they are appended to the contents |
| ReadBuffers.ReadBuf.MakeContiguous | crates/librqbit/src/read_buf.rs:82-101 | keeps the contents and moves them to the front; refuses exactly when they end before the end of the buffer |
| ReadBuffers.ReadBuf.FillAtLeast | crates/librqbit/src/read_buf.rs:173-194 | reads until enough came in, the buffer is full or the peer is gone, losing nothing |
| ReadBuffers.ReadBuf.ReadMessage | crates/librqbit/src/read_buf.rs:141-202 | the result is a function of the unconsumed bytes alone, and exactly the message is consumed; the internal error of `make_contiguous` never occurs |
| ReadBuffers.ReadAll | crates/librqbit/src/read_buf.rs:141-202 | reading to the end yields the messages of the byte stream in order, however it is cut into reads |
| FileTrees.RenameAt | crates/librqbit/src/relocate.rs:56-91 | what is at each path after a rename to a free place |
| FileSystems.FileSystem.RenameNoClobber | crates/librqbit/src/relocate.rs:56-91 | moves a subtree to a free place or changes nothing, and the files below it are tracked to their new places; something in the way is replaced exactly when the system cannot be asked for this, it cannot be read, and a rename can replace it; then that file is gone and every other one is still tracked |
| FileSystems.ReplacedIsGone | crates/librqbit/src/relocate.rs:84-90 | what was replaced is nowhere any more, if no other file was like it |
| FileSystems.ReplaceHeld | crates/librqbit/src/relocate.rs:84-90 | every other file is where it was, or moved along |
| FileSystems.FileSystem.CreateDirAll | crates/librqbit/src/relocate.rs:238-244 | makes exactly the directories that are missing; when nothing fails, exactly if nothing on the way is a file |
| FileSystems.FileSystem.CopyFileVerified | crates/librqbit/src/relocate.rs:123-165 | success means an equal copy at a place that was free; failure touches nothing else |
| FileSystems.FileSystem.CopyTreeVerified | crates/librqbit/src/relocate.rs:169-198 | success means the copy mirrors the folder and the copied files are all its files |
| Moving.RemoveEmptyTree | crates/librqbit/src/relocate.rs:299-308 | only directories go, no file is lost |
| Moving.MovePath | crates/librqbit/src/relocate.rs:238-296 | failure leaves every file in place, success takes every file below the source to the same place below the destination; something is replaced exactly when it works and the destination is taken, which it is only by something that cannot be read, and the rest fares as if that had not been there; when nothing fails it works exactly when the way is free or what is in it can be replaced unseen, and the tree is that of the plain rename or copy |
| MergePlaces.StageStep | crates/librqbit/src/relocate.rs:335-351 | each entry that a merge moves, in listing order, takes every file to its next place, also when the destination contains the source |
| MergePlaces.FinalNoReturn | crates/librqbit/src/relocate.rs:335-351 | a file that does not land inside the source folder again ends at its place below the destination |
| Merging.FindConflicts | crates/librqbit/src/relocate.rs:311-332 | everything reported clashes or does not show its type; when every folder, entry and target can be read and nothing is reported, nothing clashes |
| Merging.MergeDir | crates/librqbit/src/relocate.rs:335-351 | whatever fails, something is replaced only below the destination where it cannot be read, at no place twice, and a file is gone only from such a place, or, while none returns, if it came by one; without an error every other file is where the listing order takes it; when nothing fails it works exactly when every entry can be moved, the tree is that of the entries moved or copied one after the other, and exactly what these replace is replaced; a copy that replaces nothing leaves everything and copies every file |
| Relocation.FreePath | crates/librqbit/src/relocate.rs:367-378 | the first free one of the name and its numbered variants; the variant with the process id when all are taken |
| Relocation.RemoveEmptyDirs | crates/librqbit/src/relocate.rs:213-232 | only empty directories between the given one and the stop go |
| RelocationPlans.TakesNoOther | crates/librqbit/src/relocate.rs:541-567 | in a safe plan the turn of one file takes no other one along |
| RelocationPlans.StaysOnTrack | crates/librqbit/src/relocate.rs:541-567 | each turn of a safe plan keeps every planned file at its target or at its old place, whatever it replaces unseen |
| RelocationPlans.BystanderTrack | crates/librqbit/src/relocate.rs:541-567 | files outside the plan stay through all turns when no planned path is a directory |
| RelocationPlans.GoneMore | crates/librqbit/src/relocate.rs:541-567 | from turn to turn, a file is gone only if its track came by a place at which something was replaced |
| Relocation.MoveEach | crates/librqbit/src/relocate.rs:541-567 | whatever fails, files are where the turns taken so far put them, or gone if they came by a target that cannot be read; a file that cannot be read has no turn, the reports are the targets of these, files outside the plan stay; when nothing fails the turns, the errors and what is replaced are those of the run |
| Relocation.JoinOthers | crates/librqbit/src/relocate.rs:485-507 | the same while files from elsewhere join the moved folder |
| Relocation.HalfwayRight | crates/librqbit/src/relocate.rs:456-470 | after a move or merge that stopped halfway, the reported path holds the file, when both its places can be read |
| Relocation.HalfwayIff | crates/librqbit/src/relocate.rs:456-470 | it is found there exactly when its new place can be read and its old one seems empty, if it has moved, or when its old place can be read or nothing is seen in the new one, if it has not |
| Relocation.TurnsExact | crates/librqbit/src/relocate.rs:485-567 | after any number of turns of a safe plan, a file is found where it is reported exactly when its metadata can be read, it is in place already, or its turn had not come |
| Relocation.ChooseFolder | crates/librqbit/src/relocate.rs:441-448 | the requested folder when it seems free, or has no clash that can be seen; otherwise a name beside it that seems free |
| Relocation.Execute | crates/librqbit/src/relocate.rs:420-588 | in every run something is replaced only at a target that cannot be read, or in the folder that is merged into, and nothing when there is nothing to do; a file is gone only if it came by such a place; for safe plans that do not merge a folder into its container it is said exactly which of the others are found where they are reported, and all are when they can be read; a copy that replaces nothing needs only that; files outside the plan stay unless they were replaced in their place; without an error every file that is left is where the turns take it; and when nothing fails there is an error exactly when a move cannot be made, for moves and copies, and exactly what is in the way unseen is replaced |
| RelocationReports.FoundIff | crates/librqbit/src/relocate.rs:420-588 | without an error every file is where it is reported exactly when the turns of the plan, without those of files that cannot be read, take it to its target, and none was replaced |
| RelocationReports.ReportedIff | crates/librqbit/src/relocate.rs:420-588 | the same for contents, when no two files are alike and nothing is left behind |
| RelocationReports.RelocateCalmly | crates/librqbit/src/relocate.rs:420-588 | when nothing fails but reading metadata, the relocation ends without an error exactly when every turn can be taken, its report is right exactly under the condition of ReportedIff, and no file is replaced if no turn finds something unseen in its way |
| RelocationReports.MergeIntoContainerMisreports | crates/librqbit/src/relocate.rs:335-351 | a merge into the containing folder, without any failure, after which the report is wrong |
| RelocationReports.MissingFileTakesAnother | crates/librqbit/src/relocate.rs:541-567 | a missing file registered at another one's destination takes that one away from its reported place |
| RelocationReports.SharedPathMisreports | crates/librqbit/src/relocate.rs:541-567 | of two files registered at one path the second is reported where it is not |
| RelocationReports.DirectoryTakesAnother | crates/librqbit/src/relocate.rs:541-567 | a file registered at a directory takes along another one in it |
| RelocationReports.UnreadableFileIsMisreported | crates/librqbit/src/relocate.rs:550-554 | a safe plan with one file on disk whose metadata cannot be read: it stays, and is reported at its target without an error |
| RelocationReports.UnseenTargetIsLost | crates/librqbit/src/relocate.rs:84-90 | a relocation without an error after which the content of a file that was at the target is nowhere, and nothing else was replaced |
| EventLogs.RotatedFits | crates/librqbit/src/event_log.rs:291-323 | a rotation keeps the newest older segments that fit the budget together with the finished one |
| EventLogs.AppendKeepsCap | crates/librqbit/src/event_log.rs:326-338 | an append of a line no longer than a segment keeps the shares of the current and the rotated segments |
| EventLogs.EnforceMakesCap | crates/librqbit/src/event_log.rs:259-275 | whatever was there, enforcing a cap brings the log within its shares |
| EventLogs.WithinCapTotal | crates/librqbit/src/event_log.rs:240-242 | within the shares the total is at most the cap, for every cap but zero |
| EventLogs.ZeroCapHoldsAByte | crates/librqbit/src/event_log.rs:185-187 | with a cap of zero one byte can still be stored |
| EventLogs.MiddleIsCut | crates/librqbit/src/event_log.rs:295-308 | for every cap whose budget is positive but smaller than a segment, a run of lines after which the log does not hold the last ones without a gap |
| EventLogs.SuffixIff | crates/librqbit/src/event_log.rs:291-338 | with a fixed cap, every run holds the last lines without a gap exactly when the budget has room for a segment or for nothing |
| EventLogs.ClampedCapHasRoom | crates/librqbit/src/event_log.rs:189-191 | every cap the settings allow has that room |
| EventFiles.Rotator.DropUntilFits | crates/librqbit/src/event_log.rs:277-289 | drops the oldest files until the rest fit by their recorded sizes, and does nothing when they do; with the right sizes that is what the log drops |
| EventFiles.Rotator.ShiftUp | crates/librqbit/src/event_log.rs:309-314 | from any state: the files above the place where it stops have moved up by one, the others are where they were, and it stops only at a step that fails or a file that is not there |
| EventFiles.Rotator.Rotate | crates/librqbit/src/event_log.rs:291-323 | the files afterwards are the rotation of the log; with wrong sizes, if the listed files are there, what fits by them; always when no step fails; after a failure either nothing has happened or the files it keeps are in the middle of a shift; from any state, when no step fails, it drops what does not fit by the recorded sizes, and then works exactly when what is listed is there |
| EventFiles.Rotator.Append | crates/librqbit/src/event_log.rs:326-338 | the files afterwards are the log with the line appended, within the cap if they were and the line fits a segment, and always when no step fails; a failure loses nothing but what a rotation drops, and may leave part of the line; the same holds, by the recorded sizes, as long as the listed files are there, which they stay unless a rotation stops halfway; from any state, when no step fails, the line is added to the current file, or to a new one after a rotation that works, or not at all |
| EventFiles.Rotator.SetCap | crates/librqbit/src/event_log.rs:259-265 | with another cap the files are enforced to it and within it afterwards; with the same cap nothing happens; it works when no step fails |
| EventFiles.Open | crates/librqbit/src/event_log.rs:207-238 | opening any set of files brings the total within the cap, or to a byte for a cap of zero; it works when no step fails |
| EventFiles.NextGap | crates/librqbit/src/event_log.rs:309-314 | a shift after one that stopped halfway stops at the gap and makes it wider by one, unless nothing listed follows it |
| EventFiles.GapStores | crates/librqbit/src/event_log.rs:309-314 | exactly which files are still within reach of a rotation when the gap has a given width and the files past it a given end |
| EventFiles.RotateAgain | crates/librqbit/src/event_log.rs:291-323 | a rotation that failed is tried again and no step fails: it works exactly when the failed one had renamed nothing, and otherwise widens the gap |
| EventFiles.AgainCosts | crates/librqbit/src/event_log.rs:309-314 | that loses no segment but the oldest, and this one exactly when the failed rotation had renamed at least two |
| EventFiles.RotateBroken | crates/librqbit/src/event_log.rs:291-323 | in a log with a gap, when no step fails, a rotation works exactly when the files that fit end before the gap, and then keeps exactly these; otherwise it fails, has dropped the others, and the gap is wider by one if a file that is kept follows it; while all fits it always fails and drops nothing |
| EventFiles.AppendBroken | crates/librqbit/src/event_log.rs:326-338 | an append to a log with a gap, when no step fails: a line that fits the current segment is added there and leaves the gap; otherwise, as the rotation fails or works, it is lost and the gap is as RotateBroken says, or it begins a new segment and the log is whole again |
| EventFiles.ListedIff | crates/librqbit/src/event_log.rs:302-308 | after the oldest were dropped, all that is listed is there exactly when it ends before the gap |
| EventFiles.RotationsLoseAllButOne | crates/librqbit/src/event_log.rs:291-323 | from any settled log in which all fits, one failing step and as many rotations as there are rotated segments, after which exactly one of these is still somewhere |
| EventFiles.ReopenedAfterFailure | crates/librqbit/src/event_log.rs:214-238 | opening the log after a failed shift loses exactly the segments that had moved |
| OwnedSets.OwnedSet.AddAncestors | crates/librqbit/src/orphan_cleanup.rs:76-84 | stopping at the first known directory still records every directory above the path |
| OwnedSets.OwnedSet.AddFile | crates/librqbit/src/orphan_cleanup.rs:68-71 | adds the file; the recorded ancestors stay exactly the places above something used |
| OwnedSets.OwnedSet.AddProtectedDir | crates/librqbit/src/orphan_cleanup.rs:72-75 | the same for a protected folder |
| OwnedSets.TouchesMeans | crates/librqbit/src/orphan_cleanup.rs:85-91 | a path is touched exactly when it or something below it is used, or it is in or above a protected folder |
| OrphanScans.DedupedRoots | crates/librqbit/src/orphan_cleanup.rs:166-174 | the remaining roots are apart and every root is inside one of them |
| DirScans.CutOpen | crates/librqbit/src/orphan_cleanup.rs:243-255 | opening a folder replaces it by its entries: parts stay apart and still cover everything |
| DirSummaries.SummarizeDir | crates/librqbit/src/orphan_cleanup.rs:183-217 | a summary counts exactly the entries met whose metadata could be read; all that can be reached is met unless the budget runs out; it fails exactly when a step on the way does |
| DirSummaries.EnoughBudget | crates/librqbit/src/orphan_cleanup.rs:183-217 | with budget for all that can be reached, it fails exactly when a step within reach does, and otherwise counts all of it |
| DirSummaries.SummaryExact | crates/librqbit/src/orphan_cleanup.rs:183-217 | when everything can be read, the figures are those of the folder and everything below it |
| OrphanScans.Judge | crates/librqbit/src/orphan_cleanup.rs:261-346 | each outcome exactly under its condition: left to torrents, opened, passed over for a reason, or reported with the figures of what could be read |
| OrphanScans.ScanRoot | crates/librqbit/src/orphan_cleanup.rs:238-349 | below a root every entry met has a fate that is right, the counters count these, and whatever was reached is under one of them |
| OrphanReports.InOneItem | crates/librqbit/src/orphan_cleanup.rs:316-345 | no file is in two items |
| OrphanScans.Scan | crates/librqbit/src/orphan_cleanup.rs:227-351 | the items and the counters by reason are exactly the fates of the entries met, items are apart and name the root they are in, everything reached has a fate, at most one folder is judged by a part of it, and the scan is cut short only when the budget is used up or the list is full |
| OrphanReports.NothingUsedIsReported | crates/librqbit/src/orphan_cleanup.rs:261-275 | no item is used, holds anything used or lies in it |
| OrphanReports.ReportedIff | crates/librqbit/src/orphan_cleanup.rs:261-346 | in a tree within the budget, exactly those of the uppermost unused entries are reported whose readable part is old and free of symlinks |
| OrphanReports.NothingIsMissed | crates/librqbit/src/orphan_cleanup.rs:238-349 | whatever fails elsewhere, an old unused file with no failing step or hidden name on the way is in an item, or the folder around it is held back, or the scan says that it was cut short |
| OrphanReports.FolderItemExact | crates/librqbit/src/orphan_cleanup.rs:183-217 | when all inside can be read, a folder item has the figures of everything in it, and nothing in it is recent or a symlink |
| OrphanReports.NoisyFolderReportedIff | crates/librqbit/src/orphan_cleanup.rs:198-205 | a folder that holds something recent or a symlink is reported exactly when all of that is unreadable while every listing succeeds |
| OrphanReports.RecentFileIsReported | crates/librqbit/src/orphan_cleanup.rs:198-205 | a tree in which that happens |
| OrphanReports.JudgedFolderIff | crates/librqbit/src/orphan_cleanup.rs:183-346 | with any budget a folder is reported exactly when what was met of it is old and free of symlinks, and that is all of it or the budget is gone |
| OrphanReports.CutShortIsReported | crates/librqbit/src/orphan_cleanup.rs:192-196 | without any budget a folder is reported whatever it holds, for its own age alone |
| CivilDates.YearFormula | crates/librqbit/src/orphan_cleanup.rs:730-733 | the year formula is right on every day of every year of the 400-year era |
| CivilDates.Epoch | crates/librqbit/src/orphan_cleanup.rs:727-739 | day zero is 1970-01-01 |
| CivilDates.AlwaysValid | crates/librqbit/src/orphan_cleanup.rs:727-739 | every day number gives a valid Gregorian date |
| CivilDates.Successor | crates/librqbit/src/orphan_cleanup.rs:727-739 | the next day number gives the next date |
| CivilDates.CopiesAgree | crates/librqbit/src/adopt.rs:388-403 | the copy behind the RFC 3339 time stamps agrees on every day |
| Sampling.SampleRangeExact | crates/librqbit/src/adopt.rs:147-166 | the pieces that can be sampled are exactly those inside both the file and the candidate |
| Sampling.SpreadCovers | crates/librqbit/src/adopt.rs:127-137 | the sampled indices are in range and include the first and the last |
| Sampling.SampleMeans | crates/librqbit/src/adopt.rs:141-206 | verified means that a whole piece inside has the hash of the torrent; a mismatch, that the first and the last have not and some piece is written; zeros, that these two are blank; nothing is said exactly when no piece is inside |
| Sampling.ReadsWholePiece | crates/librqbit/src/adopt.rs:184-189 | a sampled piece is read whole, from inside the candidate |
| Sampling.SampleCandidate | crates/librqbit/src/adopt.rs:141-206 | two rounds of sampling that look at no piece twice give that verdict, unless the file cannot be read |
| Adoption.ClaimedOnce | crates/librqbit/src/adopt.rs:289-310 | the longer-name rule: a name is claimed by at most one file of a directory |
| Adoption.Candidates | crates/librqbit/src/adopt.rs:260-320 | the candidates are exactly the claimed files that are listed with type and size and are not too long |
| Adoption.DecideOne | crates/librqbit/src/adopt.rs:236-357 | every decision states its case: the file is there, our own partial is, one candidate that is not contradicted, several candidates, or none that fits; it fails only when something on the way is a directory or cannot be inspected, listed or read |
| Adoption.TakenIff | crates/librqbit/src/adopt.rs:320-345 | a missing file with exactly one candidate is adopted from it exactly when the sample does not contradict it |
| Adoption.PlanIsCollisionFree | crates/librqbit/src/adopt.rs:339-344 | all sources and all targets of a plan are different and no target exists |
| Adoption.PlanAdoption | crates/librqbit/src/adopt.rs:215-369 | the plan is the right decision about every file, the rejected ones are exactly those that are too long or contradicted, and it is collision-free; it is refused for size only when a file that is there, under its name or as our own partial, is longer than expected, never accepted then, and fails otherwise only where a decision does |
| Adoption.ApplyAllAtOnce | crates/librqbit/src/adopt.rs:447-493 | one after the other the renames do what they would do all at once |
| Adoption.OrderDoesNotMatter | crates/librqbit/src/adopt.rs:447-493 | in any other order they do not collide either, and give the same file system |
| Adoption.ApplyAdoption | crates/librqbit/src/adopt.rs:426-503 | whatever fails, something is replaced only at a target that cannot be read, never by a collision-free plan, of which a first part is done; every other file is still tracked; when nothing fails it works exactly when every rename can be done, the result is that of the renames one after the other, and exactly what these find in their way unseen is replaced; a collision-free plan is carried out completely then |
| Adoption.RenameOne | crates/librqbit/src/adopt.rs:447-459 | a rename is passed over when it goes nowhere or its target is seen; otherwise it moves the file, or replaces exactly what is there and cannot be read, and every other file is still tracked |
| Adoption.RunIsAll | crates/librqbit/src/adopt.rs:447-493 | when nothing fails a collision-free plan does all its renames, whatever cannot be read |
| Adoption.UnseenTargetIsLost | crates/librqbit/src/adopt.rs:451-458 | a run after which the content of a file that was at the target is nowhere, and nothing else was replaced |

## Left out

- Relocation.Execute: takes a path to be unreadable throughout a run or not at all; where a folder is merged into its container, or a plan is not safe, it says of a file that was replaced only that each replacement costs at most one.
- RelocationReports.ReportedIff: takes the contents of the files to be different and no copy to be left behind, because otherwise a wrong path can hold the right content by chance; FoundIff needs neither.
- EventFiles.AppendBroken: takes no further step to fail, like RotateAgain and RotateBroken; what a second failing step leaves in a log that has a gap already is not stated.
- PeerMessages.ProjectedIsStable: is about headers that are read off a parsed value; that the typed decoder of the original is one of these is not shown.
- OrphanReports.ReportedIff: is about trees that fit the budget; what holds beyond it is JudgedFolderIff for one folder.
- PieceTrackers.NothingWantedMeansNothingQueued: takes piece indices to fit a 64-bit word, where the piece order computes with wrap-around; they are 32-bit numbers in the code.
- Serde plumbing for typed structures, booleans and narrow integers; only the dynamic value is modelled, and typed decoders of extended messages are parameters.
- Write errors of the bencode serializer, and its raw-value tag; the prefix flag that the tag sets is modelled.
- The handshake read, timeouts and socket errors of the read buffer.
- Symlinks, permissions and time stamps in relocation, and other processes changing the file system at the same time; a listing is a snapshot.
- Listing a directory more than 2048 levels deep, which fails here; any listing may fail, so nothing that is proved rests on it. Copying a directory into itself fails too.
- The texts that explain decisions in an adoption plan, and which files they are attached to.
- Aggregation of repeated errors, the query index and the repair counters of the event log, and the migration of older logs.
- Applying a clean-up: revalidation, quarantine, restore and purge.
- The pseudo-random key that scatters pieces in download order, which is a parameter.
- Calendar overflow at the ends of the 64-bit range of day numbers; numbers are unbounded here.
- HTTP API, desktop UI, preferences, DHT networking and peer connection tasks.
