# What is modelled

This project models the parts of the libtorrent 1.1 sources in `TestBB/LibTorrent/torrent/`
that carry the most intricate state, and proves what they are for.

- **Disk cache and its threads** (`CacheModel`, `CacheSpec`, `BlockEdits`, `CacheOps`, `Eviction`, `BlockCache`,
  `CacheReads`, `DiskThread`, `DiskJobs`, `DiskProtocol`, `ProtocolFrames`, `FlushSteps`, `CacheSteps`, `HashSteps`, `ReadSteps`,
  `ProtocolRuns`, `ProtocolWitnesses`). The cache operations are methods of a class, each proved to turn one value of the cache
  (`Abs()`) into another. The threads are a step system over these values: a step is what one thread does while it
  holds the cache mutex, or one disk or hash operation after it dropped it. A *flight* is a thread between two locked
  sections, with the blocks it has references to. Runs are arbitrary interleavings of such steps.
- **Bencode parser** (`Bdecode`, `BdecodeTree`, `BdecodeStrings`, `BdecodeText`, `BdecodeNode`, `Bencode`,
  `BencodeRoundTrip`, `BencodeEncoded`). The
  parser is a method over a stack array, proved equal to a machine that takes one item a step. The format is that of
  BEP 3, section "bencoding".
- **Bandwidth scheduler** (`BandwidthChannel`, `BandwidthSums`, `BandwidthManager`). Channels and the manager are
  classes. Each channel carries ghost sums of what was spent and returned.
- **Unicode converters** (`Transcode`, `Unicode`, `UnicodeText`, `ConvertUTF`, `ConvertStops`, `ConvertLoops`). `Transcode` is about
  resumable converters in general; `Unicode` has the grammar of section 4 of RFC 3629 and the pairs of section 2 of
  RFC 2781; `ConvertLoops` has the loops over a target array.
- **File progress** (`FileLayout`, `FileProgress`) and **send queue** (`ChainedBuffer`, `SendQueue`).

Conventions. A buffer of the disk cache is an address and a tag for its content. Time is a parameter that never goes
back; within one locked section all readings of the clock agree. The number of blocks an operation asks to evict, the
result of a `writev`, the order of steps, the buffers the allocator hands out and the peers that are disconnecting are
parameters. A `writev` that returns a negative number has set its error, as its contract says. The request field
`assigned` of the bandwidth scheduler is called `granted` here. The two methods of `kick_hasher` leave out the pin that
its callers hold; its steps include it.

## Where code and documentation differ

- `cache_hit` says that a hit promotes a piece of the volatile list to the first read list; its range test
  (block_cache.cpp:461-463) leaves volatile pieces where they are. The code is followed.
- `do_read` takes it for granted that its own `try_read` finds what was just read (disk_io_thread.cpp:1313-1320). It
  does not in one case, which `ReadSteps.OwnReadServed` states exactly.
- `flush_range` goes on with a piece after `blocks_flushed` may have freed it. The callers that pin the piece are safe;
  for the two that do not, `flush_piece` (disk_io_thread.cpp:806) and `do_flush_piece` (lines 2905-2916 and 356),
  `FlushSteps.FlushStays` states exactly when the piece is still there.
- After an error a string of the token tree may be too long (`BdecodeStrings.StringsExact`).
- When buffers run out `write_piece` goes on after the send buffer was freed and pushes a range that breaks the order
  check_invariant asks for (`SendQueue.BtPeerConnection.WritePiece`).
- The parser refuses the encoding of the empty string on its own (bdecode.cpp:861), though BEP 3 allows it.
- A request may list ten channels, and all ten get quota back when it is dropped, but only the first five are charged
  (bandwidth_queue_entry.cpp:65-74). `BandwidthManagers.Conservation` says exactly when the books balance.
- An empty file that begins where a piece begins is never reported as completed (`FileLayout.EmptyInside`).
- `ConvertUTF32toUTF8` forgets an oversize number when it is called again (`ConvertUTF.OversizeKept`), and the
  lenient `ConvertUTF16toUTF8` consumes an unpaired high surrogate that it would not consume at the end of the source
  (`ConvertUTF.LenientPaired`).

## Model

| member | source | states |
|---|---|---|
| ProtocolRuns.StepKeeps | TestBB/LibTorrent/torrent/disk_io_thread.cpp:546-768 | Every locked or unlocked step of every thread (taking and returning buffers, writing a block, evicting, hits, marking, flush start with or without a pin of the caller, each writev, flush finish, the three hasher stretches, do_hash, reads, reclaiming) keeps the whole invariant: the recounts of the cache, the agreement between the pieces and the threads that hold them, the job ledger and the event log. |
| ProtocolRuns.RunKeeps | TestBB/LibTorrent/torrent/disk_io_thread.cpp:2133-2246 | Every finite interleaving of those steps keeps the invariant. |
| ProtocolRuns.Reachable | TestBB/LibTorrent/torrent/block_cache.cpp:1583-1705 | Every state reached from the empty cache satisfies the invariant, and no read job was submitted twice. |
| ProtocolRuns.PendingOwned | TestBB/LibTorrent/torrent/disk_io_thread.cpp:546-605 | In every such state a block is pending exactly while one flush has it, never two; it is then dirty and has a buffer; and the reference count of any block is the number of holds the threads have on it. |
| ProtocolRuns.HeldKept | TestBB/LibTorrent/torrent/block_cache.cpp:1352-1411 | A piece somebody works on, a flush without a pin of its caller included, stays in the cache as long as he has dropped the mutex, and each block he holds still has the very buffer he found there. |
| ProtocolRuns.DoneIsWritten | TestBB/LibTorrent/torrent/disk_io_thread.cpp:678-723 | A write job reported as done was hung on its piece before its block was written without error, with the content the cache held for it. |
| ProtocolRuns.OneReader | TestBB/LibTorrent/torrent/disk_io_thread.cpp:1600-1621 | No piece has two issued read jobs. |
| ProtocolRuns.QueueHasReader | TestBB/LibTorrent/torrent/disk_io_thread.cpp:1330-1410 | Read jobs are queued on a piece only while one is issued for it. |
| ProtocolRuns.RunSubmitted | TestBB/LibTorrent/torrent/disk_io_thread.cpp:1558-1622 | Over any run no read job is submitted twice: only prep_read_job_impl takes in new ones. |
| ProtocolRuns.NextSubmitted | TestBB/LibTorrent/torrent/disk_io_thread.cpp:1558-1622 | Of all steps only the preparation of a read job takes in a job, and exactly that one. |
| ProtocolRuns.NextEnded | TestBB/LibTorrent/torrent/disk_io_thread.cpp:1206-1410 | Which read jobs each step ends, and how: a new job with its blocks cached completes; a read ends its own job as it went; queued jobs complete if their blocks are cached and fail after a read error or when shutting down; no other step ends any. |
| ProtocolRuns.JobInOnePlace | TestBB/LibTorrent/torrent/disk_io_thread.cpp:1206-1410 | A submitted read job is issued, queued, completed or failed, in exactly one of these ways. |
| ProtocolRuns.HashersApart | TestBB/LibTorrent/torrent/disk_io_thread.cpp:2133-2164 | At most one hasher works on a piece. |
| ProtocolRuns.HashCovers | TestBB/LibTorrent/torrent/disk_io_thread.cpp:2169-2207 | The partial hash was fed blocks 0, 1, 2, ... once each, in order, and each feed is in the log; while nobody works on it its offset is exactly the bytes of the blocks fed. |
| ProtocolRuns.DigestWhole | TestBB/LibTorrent/torrent/disk_io_thread.cpp:2326-2341 | A digest is published only of a hash that was fed every block of the piece, once each and in order, each feed logged before. |
| ProtocolRuns.NextHashed | TestBB/LibTorrent/torrent/disk_io_thread.cpp:2179-2185 | Of all steps only feeds are logged as feeds, each with what the block's buffer holds at that moment - a buffer the hasher has locked - or with what was just read from disk for a block it has not locked. |
| ProtocolRuns.HashedFrom | TestBB/LibTorrent/torrent/disk_io_thread.cpp:2179-2185 | Every feed in the log of a run was made by one step of the run, in the state reached up to there. |
| ProtocolRuns.DigestContent | TestBB/LibTorrent/torrent/disk_io_thread.cpp:2426-2511 | Each block of a published digest was fed by a step of the run, from what its buffer held at that moment. |
| FlushSteps.FlushStartKeeps | TestBB/LibTorrent/torrent/disk_io_thread.cpp:738-749 | The locked start of flush_range (reference the dirty blocks that are not pending, mark them, pin the piece) keeps the invariant, for callers with and without a pin of their own. |
| FlushSteps.WriteRunKeeps | TestBB/LibTorrent/torrent/disk_io_thread.cpp:631-648 | One writev of a contiguous run, failed or not, keeps the invariant; if it succeeded the log shows each of its blocks written with the content held. |
| FlushSteps.FlushFinishKeeps | TestBB/LibTorrent/torrent/disk_io_thread.cpp:754-767 | iovec_flushed and the rest of flush_range (the blocks come clean, the piece may be freed, jobs are completed or failed, then eviction, then unpinning if the caller pinned) keep the invariant, whatever the eviction in between frees. |
| FlushSteps.FlushEnabled | TestBB/LibTorrent/torrent/disk_io_thread.cpp:754-767 | The finishing section finds its blocks dirty, pending and referenced and its piece pinned; the pin of a caller carries the piece through the whole section. |
| FlushSteps.FlushStays | TestBB/LibTorrent/torrent/disk_io_thread.cpp:756-758 | The piece is still there after blocks_flushed, for iovec_flushed to look at its jobs, if and only if the caller pinned it, or it is not marked for eviction, or has jobs, or another thread is at work on it, or its hash has begun, or it may become a ghost and does. |
| FlushSteps.FreedStays | TestBB/LibTorrent/torrent/block_cache.cpp:1821-1841 | maybe_free_piece removes a piece exactly if it is marked, unused and without jobs and does not become a ghost. |
| ProtocolWitnesses.FlushLosesPiece | TestBB/LibTorrent/torrent/disk_io_thread.cpp:756-758 | A run from the empty cache after which a flush without a pin of its caller finds its piece gone: another flush of the piece failed and took all its jobs, and the piece was marked. |
| FlushSteps.DoneWasWritten | TestBB/LibTorrent/torrent/disk_io_job.cpp:69-84 | A job that counts as completed after a flush without error has its block among those the flush wrote, after the job was hung. |
| FlushSteps.FinishLog | TestBB/LibTorrent/torrent/disk_io_thread.cpp:678-723 | The completions of a flush may be appended to the log: each that succeeded follows the write of its block. |
| FlushSteps.RunEndLemma | TestBB/LibTorrent/torrent/disk_io_thread.cpp:637-648 | The splitting into runs takes consecutive blocks, and a run ends only where the next block does not follow. |
| DiskThreads.BuildIovec | TestBB/LibTorrent/torrent/disk_io_thread.cpp:546-605 | The loop selects exactly the dirty blocks that are not pending below the end, in order, with their buffers, and marks and references exactly those. |
| DiskThreads.FlushRangeBegin | TestBB/LibTorrent/torrent/disk_io_thread.cpp:738-747 | flush_range up to the write: the selection of build_iovec, and one more pin on the piece if anything was selected. |
| DiskThreads.FlushIovec | TestBB/LibTorrent/torrent/disk_io_thread.cpp:631-648 | The loop issues exactly the calls of the specification and reports an error iff one of them failed. |
| DiskThreads.CallsCover | TestBB/LibTorrent/torrent/disk_io_thread.cpp:637-648 | Each flushed block is covered by exactly one writev call, and each call is a maximal run of consecutive blocks. |
| DiskThreads.CallPlace | TestBB/LibTorrent/torrent/disk_io_thread.cpp:640-644 | Piece and offset of a call are the place of its first block in the storage, also when a block index runs past its piece. |
| DiskThreads.SortJobs | TestBB/LibTorrent/torrent/disk_io_thread.cpp:697-722 | The loop over the hung jobs leaves and completes the jobs of the specification. |
| DiskThreads.JobsSettled | TestBB/LibTorrent/torrent/disk_io_thread.cpp:697-722 | On an error every job of the piece fails and none is left; otherwise a job is completed if its blocks are clean and stays hung if not; no job is lost or doubled. |
| DiskThreads.IovecFlushed | TestBB/LibTorrent/torrent/disk_io_thread.cpp:678-723 | For a piece that blocks_flushed leaves in the cache the method turns the cache into that of the specification and reports the completions of the jobs. |
| DiskThreads.FlushRangeEnd | TestBB/LibTorrent/torrent/disk_io_thread.cpp:754-767 | The part of flush_range after the write, with or without a pin of the caller: the landing, maybe_free_piece, an eviction, and the release of the caller's pin; the completions are those of the jobs. A caller's pin makes the piece stay. |
| DiskThreads.CollectExpired | TestBB/LibTorrent/torrent/disk_io_thread.cpp:985-1007 | The walk over the write list collects expired dirty pieces, pins them, and below its cap of 200 misses none in the whole cache, although it stops at the first young piece. |
| DiskThreads.YoungTail | TestBB/LibTorrent/torrent/disk_io_thread.cpp:985-1007 | Behind a piece that has not expired no piece of a sorted list has. |
| DiskThreads.AllExpired | TestBB/LibTorrent/torrent/disk_io_thread.cpp:985-1007 | Every expired dirty piece is in the write list. |
| DiskThreads.KickHasherBegin | TestBB/LibTorrent/torrent/disk_io_thread.cpp:2133-2164 | Nothing happens if there is no hash, a hasher, or nothing left to hash; otherwise the cursor is the first unhashed block and the run of cached blocks from there is referenced. |
| DiskThreads.KickHasherEnd | TestBB/LibTorrent/torrent/disk_io_thread.cpp:2189-2207 | The cursor is stored and the run is released, and nothing else changes. |
| DiskThreads.DecBlocks | TestBB/LibTorrent/torrent/disk_io_thread.cpp:2205-2207 | The loop that releases a list of blocks. |
| CacheSteps.WriteBlockKeeps | TestBB/LibTorrent/torrent/block_cache.cpp:716-788 | Writing a block (allocating the piece, making room, replacing an older buffer, hanging the job) keeps the invariant of the step system. |
| CacheSteps.EvictKeeps | TestBB/LibTorrent/torrent/block_cache.cpp:971-1185 | Whatever an eviction may free, it frees nothing that a thread holds, and the invariant stays. |
| CacheSteps.HitKeeps | TestBB/LibTorrent/torrent/block_cache.cpp:415-497 | A cache hit keeps the invariant of the step system. |
| CacheSteps.MarkKeeps | TestBB/LibTorrent/torrent/block_cache.cpp:933-948 | Marking a piece for eviction, or evicting it at once, keeps the invariant of the step system. |
| CacheSteps.FreeKeeps | TestBB/LibTorrent/torrent/block_cache.cpp:1821-1841 | maybe_free_piece keeps the invariant of the step system. |
| HashSteps.KickStartKeeps | TestBB/LibTorrent/torrent/disk_io_thread.cpp:2133-2164 | The locked start of kick_hasher keeps the invariant. |
| HashSteps.FeedKeeps | TestBB/LibTorrent/torrent/disk_io_thread.cpp:2179-2185 | Feeding a block to the hash keeps the invariant: the hash then covers one block more. |
| HashSteps.CachedFeed | TestBB/LibTorrent/torrent/disk_io_thread.cpp:2179-2185 | The block the hasher feeds next has a buffer, is referenced, and the buffer is the one the hasher locked. |
| HashSteps.CursorLemma | TestBB/LibTorrent/torrent/disk_io_thread.cpp:2144-2147 | While nobody hashes, offset divided by block size is the number of blocks fed, also for a short last block. |
| HashSteps.KickFinishKeeps | TestBB/LibTorrent/torrent/disk_io_thread.cpp:2189-2246 | The locked end of kick_hasher keeps the invariant. |
| HashSteps.HasherEnabled | TestBB/LibTorrent/torrent/disk_io_thread.cpp:2189-2207 | The end can always be taken: the blocks a hasher locked can still be released, and its piece is still marked and pinned. |
| HashSteps.HashStartKeeps | TestBB/LibTorrent/torrent/disk_io_thread.cpp:2362-2413 | The locked start of do_hash (a hash object if there is none, all cached blocks from the cursor on locked) keeps the invariant. |
| HashSteps.ReadBackKeeps | TestBB/LibTorrent/torrent/disk_io_thread.cpp:2439-2511 | Reading a block that is not cached, feeding it and inserting it keeps the invariant, also when somebody else inserted it meanwhile. |
| HashSteps.FinishHashKeeps | TestBB/LibTorrent/torrent/disk_io_thread.cpp:2515-2543 | The locked end of do_hash publishes the digest and keeps the invariant. |
| HashSteps.FinishHashEnabled | TestBB/LibTorrent/torrent/disk_io_thread.cpp:2515-2543 | A do_hash that has fed all blocks can always finish: its offset is then the piece size. |
| HashSteps.FailHashKeeps | TestBB/LibTorrent/torrent/disk_io_thread.cpp:2441-2491 | A do_hash that fails gives up its locks and keeps the invariant. |
| HashSteps.PublishKeeps | TestBB/LibTorrent/torrent/disk_io_thread.cpp:1750-1771 | Publishing a complete hash keeps the invariant. |
| HashSteps.CompleteHash | TestBB/LibTorrent/torrent/disk_io_thread.cpp:2326-2341 | A hash whose offset is the piece size was fed every block, in order. |
| ReadSteps.PrepKeeps | TestBB/LibTorrent/torrent/disk_io_thread.cpp:1558-1622 | prep_read_job_impl (served from the cache, queued behind an issued read, or issued on a piece allocated if need be) keeps the invariant, and submits exactly that job. |
| ReadSteps.ReadDoneKeeps | TestBB/LibTorrent/torrent/disk_io_thread.cpp:1276-1327 | do_read after its read (inserting the blocks, serving its own job, then the queue) keeps the invariant. |
| ReadSteps.ReadFailedKeeps | TestBB/LibTorrent/torrent/disk_io_thread.cpp:1278-1302 | A failed read fails its job and the queued ones, and keeps the invariant. |
| ReadSteps.ServeAllKeeps | TestBB/LibTorrent/torrent/disk_io_thread.cpp:1330-1410 | Serving the queue empties it unless a job has to be issued again, and keeps the invariant. |
| ReadSteps.OwnReadServed | TestBB/LibTorrent/torrent/disk_io_thread.cpp:1304-1320 | The try_read of do_read for its own job misses exactly when the job needs two blocks, the read cache line is below two blocks and the second block is not cached; the source takes it for granted that it cannot miss. |
| ProtocolWitnesses.OwnReadMisses | TestBB/LibTorrent/torrent/disk_io_thread.cpp:1304-1320 | A run from the empty cache after which do_read does miss: two bytes from the middle of the first block on, with a read cache line of one block. |
| ReadSteps.PadCovers | TestBB/LibTorrent/torrent/block_cache.cpp:1273-1286 | What is read lies in the piece, holds at least one block, and covers the job unless it needs two blocks and the line size is below two. |
| ReadSteps.TryOutcome | TestBB/LibTorrent/torrent/block_cache.cpp:1742-1777 | try_read misses exactly when one of the blocks the job needs is not cached. |
| ReadSteps.TryServes | TestBB/LibTorrent/torrent/block_cache.cpp:1742-1801 | What try_read does to references, on blocks alone: exactly one more on exactly one block for an aligned job that does not force a copy, none for any other. |
| ReadSteps.PadExactly | TestBB/LibTorrent/torrent/block_cache.cpp:1273-1286 | How many blocks one disk read takes in: one without read-ahead, else the setting, but no more than the piece has left; the largest setting stands for the rest of the piece. |
| ReadSteps.QueueServed | TestBB/LibTorrent/torrent/disk_io_thread.cpp:1330-1400 | The loop over queued jobs: exactly those whose blocks are cached complete, the first of the others is issued, and the rest stay queued in their order. |
| ReadSteps.PrepBooks | TestBB/LibTorrent/torrent/disk_io_thread.cpp:1558-1622 | A new read job completes at once exactly if its blocks are cached; otherwise it goes to the back of the queue of the read in progress, or becomes the read. |
| ReadSteps.ReadDoneBooks | TestBB/LibTorrent/torrent/disk_io_thread.cpp:1258-1322 | A read through the cache puts each buffer into its slot unless that has one, completes its own job, and ends the queued jobs by the blocks that are there then, or fails them when shutting down. |
| ReadSteps.TriedHeld | TestBB/LibTorrent/torrent/block_cache.cpp:374-399 | A miss leaves all holds as they were; a piece that is being read is not removed by the attempt. |
| ReadSteps.ReclaimedKeeps | TestBB/LibTorrent/torrent/block_cache.cpp:1804-1819 | Giving back a block that was sent to a peer keeps the invariant. |
| DiskJobs.PrepRead | TestBB/LibTorrent/torrent/disk_io_thread.cpp:1558-1622 | The method turns the cache into that of the step system's preparation and tells where the job has gone: done, issued, or queued behind another read. |
| DiskJobs.ReadEnd | TestBB/LibTorrent/torrent/disk_io_thread.cpp:1304-1328 | Inserting, serving the own job and the queue, and giving the blocks back turn the cache into that of the step system, and the jobs reported are those the step completes. |
| DiskJobs.CloseSection | TestBB/LibTorrent/torrent/disk_io_thread.cpp:1397-1409 | The piece stops being read unless a job is issued again; it cannot be freed while the section holds its blocks, so the order of the two does not matter. |
| DiskJobs.HashBegin | TestBB/LibTorrent/torrent/disk_io_thread.cpp:2372-2408 | Marks, pin, hash object and the loop that locks every cached block from the cursor on are the start step of do_hash. |
| DiskJobs.HashEnd | TestBB/LibTorrent/torrent/disk_io_thread.cpp:2515-2543 | The end is the finish step: with all blocks read the digest is that of what was fed and the hash is gone, after a failed read the hash stays as far as it got. |
| DiskJobs.HashAbandoned | TestBB/LibTorrent/torrent/disk_io_thread.cpp:2443-2456 | Without a buffer to read into everything is released and the hash is given up. |
| DiskJobs.EditMarked | TestBB/LibTorrent/torrent/disk_io_thread.cpp:2372-2408 | Marks and pins of a piece may be set before or after its blocks are referenced. |
| CacheReads.InsertBlocks | TestBB/LibTorrent/torrent/block_cache.cpp:1288-1349 | The loop inserts the buffers of a read one by one and frees those whose slot was filled meanwhile; the hit comes first. |
| CacheReads.InsertAllIs | TestBB/LibTorrent/torrent/block_cache.cpp:1303-1345 | What the step system says of inserting the buffers of a read, references included, is what the loop of the method does to the cache. |
| CacheReads.CopyFromPiece | TestBB/LibTorrent/torrent/block_cache.cpp:1713-1802 | A job within one block whose block is cached is handed that block: its reference count goes up by one and no other block changes. If it wants a copy, or straddles two cached blocks, it gets a copy and every reference count is as before; nothing at all changes unless the piece is idle and marked for eviction. A missing block is a miss, and leaves every reference count as before. |
| CacheReads.TryRead | TestBB/LibTorrent/torrent/block_cache.cpp:374-399 | The hit in the lists, and then the same outcome, told on the blocks as they were before the hit; a piece that is not cached is a miss that changes nothing. |
| CacheReads.ReclaimBlock | TestBB/LibTorrent/torrent/block_cache.cpp:1804-1819 | The reference is dropped and the piece is freed if it was only waiting for that. |
| CacheReads.ServeQueue | TestBB/LibTorrent/torrent/disk_io_thread.cpp:1330-1410 | The loops over the queued and the stalled jobs serve every job that can be served, keep the first that cannot as the next to issue, and queue the others again. |
| CacheSpec.PutKeeps | TestBB/LibTorrent/torrent/block_cache.cpp:1583-1705 | A change of one piece that accounts for itself keeps the whole-cache recount exact. |
| CacheSpec.MoveKeeps | TestBB/LibTorrent/torrent/block_cache.cpp:401-413 | Moving a piece to the back of a list with a new expiry keeps the recounts, the lists and their order. |
| CacheSpec.EraseKeeps | TestBB/LibTorrent/torrent/block_cache.cpp:950-969 | Erasing a piece without blocks keeps the invariant. |
| CacheOps.EditKeeps | TestBB/LibTorrent/torrent/block_cache.cpp:796-863 | Referencing, releasing, marking, flushing or freeing a list of blocks keeps the invariant, the three global counters included. |
| CacheOps.CacheHitKeeps | TestBB/LibTorrent/torrent/block_cache.cpp:415-497 | cache_hit keeps the invariant. |
| CacheOps.HitMoves | TestBB/LibTorrent/torrent/block_cache.cpp:429-482 | A second requester moves a piece of the read lists or their ghosts to the back of the second list, the same one only brings it back from a ghost list, a ghost hit is remembered, and a volatile piece stays where it is. |
| CacheOps.HitIsDone | TestBB/LibTorrent/torrent/block_cache.cpp:415-482 | All that a hit does to list, age, requester and the record of the last operation, for each list the piece may be in; who moves goes to the back of the list with a new age. |
| CacheOps.UpdateIs | TestBB/LibTorrent/torrent/block_cache.cpp:502-548 | A piece is in the write list after update_cache_state exactly if it has dirty blocks or a partial hash; one that has neither leaves it for the back of the first read list, and any other stays. |
| CacheSpec.WithoutOrder | TestBB/LibTorrent/torrent/block_cache.cpp:513-517 | Unlinking a piece keeps the order of the rest of its list. |
| CacheOps.CacheHitEffect | TestBB/LibTorrent/torrent/block_cache.cpp:415-497 | A hit touches nothing but the list, age and last requester of the piece, and leaves it in no ghost list. |
| CacheOps.AllocateKeeps | TestBB/LibTorrent/torrent/block_cache.cpp:616-713 | allocate_piece keeps the invariant, whether it creates the piece or promotes one. |
| CacheOps.AllocateIs | TestBB/LibTorrent/torrent/block_cache.cpp:616-713 | A new piece goes to the back of the asked list and, in the first read list, is recorded as a miss; a known one moves only to a list of higher rank. |
| CacheOps.InsertOneLemma | TestBB/LibTorrent/torrent/block_cache.cpp:1316-1342 | Inserting a buffer fills an empty slot or is freed; an existing buffer is never replaced, and the counters stay exact. |
| BlockEdits.EditAllLemma | TestBB/LibTorrent/torrent/block_cache.cpp:796-821 | What a list of block edits amounts to: exactly the listed blocks change, and the counters of the piece by their number. |
| CacheModel.TotalUpdate | TestBB/LibTorrent/torrent/block_cache.cpp:1633-1700 | The whole-cache recount after replacing a piece is the old one less its old blocks plus its new ones. |
| BlockCaches.BlockCache.IncBlockRefcount | TestBB/LibTorrent/torrent/block_cache.cpp:1352-1379 | False and no change if the block has no buffer; otherwise one reference more, and one pinned block more if it is the first. |
| BlockCaches.BlockCache.DecBlockRefcount | TestBB/LibTorrent/torrent/block_cache.cpp:1381-1411 | One reference less, and one pinned block less if it was the last. |
| BlockCaches.BlockCache.FreeBlock | TestBB/LibTorrent/torrent/block_cache.cpp:828-863 | The buffer goes back to the pool and the counters follow. |
| BlockCaches.BlockCache.UpdateCacheState | TestBB/LibTorrent/torrent/block_cache.cpp:502-536 | The piece moves to the list its state now asks for. |
| BlockCaches.BlockCache.CacheHit | TestBB/LibTorrent/torrent/block_cache.cpp:415-497 | The move between lists, the record of the requester and of ghost hits are those of the specification. |
| BlockCaches.BlockCache.AllocatePiece | TestBB/LibTorrent/torrent/block_cache.cpp:616-713 | A new piece, or an old one moved to a list of higher rank. |
| BlockCaches.BlockCache.ErasePiece | TestBB/LibTorrent/torrent/block_cache.cpp:950-969 | The piece leaves its list and the cache. |
| BlockCaches.BlockCache.MoveToGhost | TestBB/LibTorrent/torrent/block_cache.cpp:1234-1271 | The piece becomes a ghost behind its list, and the oldest ghost goes if there are too many. |
| BlockCaches.BlockCache.EvictPiece | TestBB/LibTorrent/torrent/block_cache.cpp:865-931 | All unreferenced blocks are freed; the piece is removed or becomes a ghost if nothing is left of it, and its jobs are handed back. |
| BlockCaches.BlockCache.TryEvictBlocks | TestBB/LibTorrent/torrent/block_cache.cpp:971-1185 | Frees exactly num less its result, and nothing dirty, pending, referenced or of the ignored piece; if the result is positive, no unpinned clean block is left outside it in the volatile and the two read lists, and none in the write list unless every block the read cache counts is pinned. Which read list gives first: after a hit on a ghost of the first list a piece of that list loses a block only when the second has nothing left to give, and the other way round; after a miss the longer list gives first, the first one if they are equally long. Pieces give up blocks in the order of their list, and an unused piece that was emptied does not stay in it. |
| BlockCaches.BlockCache.AddDirtyBlock | TestBB/LibTorrent/torrent/block_cache.cpp:716-788 | Room is made, an older buffer is replaced, the block is dirty and the job hangs on the piece. |
| CacheSteps.AddDirtyEffect | TestBB/LibTorrent/torrent/block_cache.cpp:716-788 | The slot holds exactly the new buffer, dirty and with no reference, whatever it held; the job is the last of those hung on the piece; a partial hash begins with the first block unless one has begun or the piece was hashed; no other block of the piece changes. |
| CacheSteps.AddDirtyPlace | TestBB/LibTorrent/torrent/block_cache.cpp:767-785 | The piece of a new dirty block is then the most recently used of the write list. |
| BlockCaches.BlockCache.BlocksFlushed | TestBB/LibTorrent/torrent/block_cache.cpp:796-821 | The flushed blocks are clean, not pending and released, dirty and read counters exact, and the piece moves to the list that fits. |
| BlockCaches.BlockCache.MaybeFreePiece | TestBB/LibTorrent/torrent/block_cache.cpp:1821-1841 | A piece marked for eviction that is idle is freed, any other stays. |
| BlockCaches.BlockCache.MarkForEviction | TestBB/LibTorrent/torrent/block_cache.cpp:933-948 | The piece is evicted now exactly if nobody uses it, and keeps its flags if a ghost of it is left; otherwise it is marked for eviction, and for deletion exactly if no ghost is wanted. |
| Eviction.EvictPieceKeeps | TestBB/LibTorrent/torrent/block_cache.cpp:865-931 | evict_piece keeps the invariant and frees only what may be freed. |
| Eviction.EvictPieceIs | TestBB/LibTorrent/torrent/block_cache.cpp:865-931 | A piece is evicted exactly if nobody uses it, whatever its partial hash; in any case exactly its unreferenced blocks go. A piece of a read list becomes a ghost and a ghost stays one unless no ghost is wanted; every other evicted piece is erased. |
| Eviction.HashedEndIs | TestBB/LibTorrent/torrent/block_cache.cpp:1137-1142 | The first pass over the write list may take exactly the blocks hashed to their last byte, or all of a piece that is not being hashed. |
| Eviction.MoveToGhostLemma | TestBB/LibTorrent/torrent/block_cache.cpp:1234-1271 | move_to_ghost keeps the invariant, the bound on ghosts included. |
| Eviction.GhostIs | TestBB/LibTorrent/torrent/block_cache.cpp:1234-1271 | The oldest ghosts of the kind, and no more of them than needed, make room; the piece becomes the youngest. |
| Eviction.MaybeFreeLemma | TestBB/LibTorrent/torrent/block_cache.cpp:1446-1492 | Freeing an idle piece keeps the invariant. |
| Bdecode.Bdecode | TestBB/LibTorrent/torrent/bdecode.cpp:704-922 | The imperative parser, with its explicit stack and back-patching, gives the tokens, the error and its position of the recursive specification, for every buffer and limit. |
| Bdecode.ParseItem | TestBB/LibTorrent/torrent/bdecode.cpp:729-883 | One round of the loop on the stack array is one step of the machine. |
| Bdecode.CloseAll | TestBB/LibTorrent/torrent/bdecode.cpp:887-915 | The repair after an error closes all open containers. |
| Bdecode.ReadInt | TestBB/LibTorrent/torrent/bdecode.cpp:135-161 | parse_int: digits up to the delimiter, overflow and premature end told apart. |
| Bdecode.ScanInteger | TestBB/LibTorrent/torrent/bdecode.cpp:55-100 | The scan stops at the first byte that is not a digit, after an optional sign, or at the end. It succeeds if and only if there are 1 to 20 digits up to there and the byte is `e`; more digits are an overflow, the end of the buffer is reported as such, and expected_digit is reported exactly where a digit was due. |
| Bdecode.ScanString | TestBB/LibTorrent/torrent/bdecode.cpp:841-867 | The length prefix is read if and only if it is a decimal 64-bit number followed by a colon, at most nine bytes long with it, and names no more bytes than are left, with at least one left; each error has its own fault in the text and its place. |
| Bdecode.ParseIntText | TestBB/LibTorrent/torrent/bdecode.cpp:135-161 | The number read is the one the digits write; reading stops at the delimiter, at the end, at the first other byte, or at the digit that would take it above 64 bits. |
| BdecodeTree.DecodeTree | TestBB/LibTorrent/torrent/bdecode.cpp:704-922 | For every buffer, depth and token limit, success or error, the tokens are a valid tree: every walk over next_item from a container stays inside and ends at an end token, dictionaries alternate string keys and values, and offsets never decrease or leave the buffer. |
| BdecodeText.DecodedText | TestBB/LibTorrent/torrent/bdecode.cpp:704-922 | A decoding without error read one item from the start of the buffer. Each token takes up exactly the bytes of its text, without a gap: `d`, `l` and `e`, an `i` with an optional sign, 1 to 20 digits and an `e`, or a length prefix and that many bytes. Each container closes with its own end token just before its link, a dictionary after whole pairs. |
| BdecodeText.DecodeFault | TestBB/LibTorrent/torrent/bdecode.cpp:727-868 | An error is reported with a position if and only if the item where the parser stopped has that fault there, each fault described on the text, the open containers and the limits. |
| BdecodeText.FailedText | TestBB/LibTorrent/torrent/bdecode.cpp:886-919 | After an error the tokens before the faulty item still take up exactly their text, and the others were added at the place of the error. |
| BdecodeText.IntegerValue | TestBB/LibTorrent/torrent/bdecode.cpp:615-637 | int_value is the number the digits of the token write, with its sign, and zero if it does not fit in 64 bits. |
| BdecodeTree.StepKeeps | TestBB/LibTorrent/torrent/bdecode.cpp:729-883 | Every round of the loop keeps the tree under construction well formed. |
| BdecodeTree.UnwindKeeps | TestBB/LibTorrent/torrent/bdecode.cpp:887-915 | Closing the open containers, also between a key and its value, leaves a valid tree. |
| BdecodeTree.OffsetsMonotone | TestBB/LibTorrent/torrent/bdecode.cpp:704-922 | Offsets never decrease and stay within the buffer. |
| BdecodeStrings.StringExtents | TestBB/LibTorrent/torrent/bdecode.cpp:835-871 | For every buffer of at most the maximum size, depth and token limit, success or error: every string token stands on a sound length prefix and ends where the prefix says, but for the one directly before a faulty length prefix at which the parser gave up, which has the bytes of that prefix that were passed, too. |
| BdecodeStrings.StringsExact | TestBB/LibTorrent/torrent/bdecode.cpp:835-915 | All strings have exactly their bytes if and only if the parser did not give up inside the length prefix of a string that directly follows another one. |
| BdecodeStrings.CutTail | TestBB/LibTorrent/torrent/bdecode.cpp:891-912 | If it did, error and position are those of that prefix, and what stands behind the string was added to close the open containers, at the position of the error. |
| BdecodeStrings.DecodedString | TestBB/LibTorrent/torrent/bdecode.cpp:704-922 | After a decoding without error, canonical or not, the content of every string node is what its length prefix names. |
| BdecodeTree.LinksFit | TestBB/TestBB/include/libtorrent/bdecode.hpp:166-196 | Every relative link fits its 29 bits if the buffer leaves room for the containers that may be open. |
| BdecodeTree.LinksFitExactly | TestBB/LibTorrent/torrent/bdecode.cpp:887-915 | All links fit, as the unwinding asserts, if and only if there was no error or the repair left no more tokens than a link can span. |
| BdecodeNode.Node.ListAt | TestBB/LibTorrent/torrent/bdecode.cpp:319-351 | The item found from the cached place is that of an uncached walk, and the cache stays right. |
| BdecodeNode.Node.ListSize | TestBB/LibTorrent/torrent/bdecode.cpp:369-398 | The cached or counted size is the number of items. |
| BdecodeNode.Node.DictAt | TestBB/LibTorrent/torrent/bdecode.cpp:400-448 | Key and value found from the cached place are those of an uncached walk, and the cache stays right. |
| BdecodeNode.Node.DictSize | TestBB/LibTorrent/torrent/bdecode.cpp:450-486 | The cached or counted size is the number of pairs. |
| BdecodeNode.Node.DictFind | TestBB/LibTorrent/torrent/bdecode.cpp:488-522 | The value of the first pair with that key, or nothing exactly if no pair has it. |
| Bencode.IntegerToStr | TestBB/LibTorrent/torrent/entry.cpp:67-85 | The buffer ends with the decimal form of the number and a zero byte. |
| BencodeRoundTrip.ToEntry | TestBB/LibTorrent/torrent/entry.cpp:358-392 | The conversion through the node accessors gives the entry of the token tree, sorted whatever the order in the text; a dictionary maps each key to the converted value of the last pair with that key, and no key that the node does not have. |
| BencodeRoundTrip.PutSorted | TestBB/LibTorrent/torrent/entry.cpp:368-376 | Filling the map pair by pair keeps the keys sorted and unique. |
| BencodeRoundTrip.PutLookup | TestBB/LibTorrent/torrent/entry.cpp:368-376 | After an assignment the key has the new value and every other key what it had. |
| BencodeRoundTrip.ConvertedDict | TestBB/LibTorrent/torrent/entry.cpp:368-376 | For a dictionary node in any key order: a key looks up to the converted value of its last pair, and to nothing exactly if no pair has it. |
| BencodeRoundTrip.ConvertSorted | TestBB/LibTorrent/torrent/entry.cpp:358-392 | Every dictionary in the converted entry has its keys sorted and unique. |
| BencodeEncoded.DecodeEncoded | TestBB/LibTorrent/torrent/bdecode.cpp:704-922 | Decoding the canonical encoding of an entry within the limits succeeds and gives exactly the tokens of the entry. |
| BencodeEncoded.RoundTrip | TestBB/LibTorrent/torrent/entry.cpp:358-392 | Converting them back gives the entry. |
| BencodeEncoded.RoundTripExactly | TestBB/LibTorrent/torrent/bdecode.cpp:857-871 | Within the limits the decoder accepts every encoding but that of the empty string on its own. |
| BencodeEncoded.EmptyStringRefused | TestBB/LibTorrent/torrent/bdecode.cpp:857-861 | The encoding of the empty string on its own is refused. |
| BencodeEncoded.KeyTooLong | TestBB/LibTorrent/torrent/bdecode.cpp:891-911 | The key abc of d3:abc5 reads as four bytes: a string that is too long as BdecodeStrings.StringsExact says. |
| BandwidthChannels.Channel.UpdateQuota | TestBB/LibTorrent/torrent/bandwidth_limit.cpp:60-86 | The quota grows by what the limit earns in the time, to the nearest byte; where that passes the 32-bit maximum it is that, and from three times a byte more than the limit on it is three times the limit. What is positive of it is to be distributed. |
| BandwidthChannels.RefilledExact | TestBB/LibTorrent/torrent/bandwidth_limit.cpp:60-86 | The same of the specification: the earned bytes are the integer within half a byte of limit times milliseconds over a thousand. |
| BandwidthChannels.RefilledBounds | TestBB/LibTorrent/torrent/bandwidth_limit.cpp:60-86 | A refill never exceeds the ceiling, never makes a quota negative and never takes more than the cap of three limits asks for. |
| BandwidthChannels.Channel.NeedQueueing | TestBB/TestBB/include/libtorrent/bandwidth_limit.hpp:78-83 | Queues exactly if the quota left after the amount would be below the limit, and charges otherwise. |
| BandwidthChannels.AssignBandwidth | TestBB/LibTorrent/torrent/bandwidth_queue_entry.cpp:57-77 | The request gets the share of its most limiting channel, and each of its first five channels is charged that, once for each time it is listed. |
| BandwidthChannels.QuotaLeast | TestBB/LibTorrent/torrent/bandwidth_queue_entry.cpp:60-71 | The share is at most what is missing and at most every channel's weighted share, and equals one of these. |
| BandwidthSums.BudgetKept | TestBB/LibTorrent/torrent/bandwidth_queue_entry.cpp:65-74 | The shares taken from a channel in a round total at most what it had to distribute. |
| BandwidthManagers.BandwidthManager.UpdateQuotas | TestBB/LibTorrent/torrent/bandwidth_manager.cpp:137-224 | One round: requests of disconnecting peers are answered with nothing and their quota goes back, each throttled channel in use is refilled exactly once, what is taken from it totals at most its distribute quota, no balance that was not negative becomes negative, the queued bytes and the ledger stay exact, and the requests finish or wait as they should. |
| BandwidthManagers.RoundFates | TestBB/LibTorrent/torrent/bandwidth_manager.cpp:137-224 | Where each request is after a round: the queue is split by who disconnects; every other request has its share added and a turn less, and is done exactly if it has all it asked for, or has no turn left and got something; all in queue order. |
| BandwidthManagers.RoundTold | TestBB/LibTorrent/torrent/bandwidth_manager.cpp:218-224 | Who is told what: the finished ones their grants, then the disconnected ones nothing, each in reverse order. |
| BandwidthManagers.BandwidthManager.RequestBandwidth | TestBB/LibTorrent/torrent/bandwidth_manager.cpp:87-122 | The channels kept are in the order given. Each channel served the request as often as it is listed but not kept, was charged for just that, and had a second's quota left then; each kept one would have had less. Granted at once exactly if none is kept. |
| BandwidthManagers.NeedQueueing | TestBB/TestBB/include/libtorrent/bandwidth_limit.hpp:78-83 | Over the listed channels in order: one is kept exactly while its quota less the request is below its limit, and charged otherwise. |
| BandwidthManagers.AskedOnce | TestBB/TestBB/include/libtorrent/bandwidth_limit.hpp:78-83 | A channel listed once is kept if and only if its quota less the request is below its limit. |
| BandwidthManagers.BandwidthManager.Close | TestBB/LibTorrent/torrent/bandwidth_manager.cpp:46-60 | Every waiting request is answered with what it was granted. |
| BandwidthManagers.Distribute | TestBB/LibTorrent/torrent/bandwidth_manager.cpp:199-216 | The loop gives every request its share in queue order, removes exactly the finished ones and keeps the queued bytes exact. |
| BandwidthManagers.DropGone | TestBB/LibTorrent/torrent/bandwidth_manager.cpp:153-179 | Exactly the requests of disconnecting peers are dropped, and all they were granted goes back to every channel they list. |
| BandwidthManagers.Weigh | TestBB/LibTorrent/torrent/bandwidth_manager.cpp:181-191 | Each channel in use is collected once, with the sum of the priorities that compete for it. |
| BandwidthManagers.Refill | TestBB/LibTorrent/torrent/bandwidth_manager.cpp:193-197 | Each collected channel is refilled exactly once. |
| BandwidthManagers.Conservation | TestBB/LibTorrent/torrent/bandwidth_manager.cpp:137-224 | Over whole runs a channel's spending less what it got back is what its requests delivered or hold, if and only if no dropped request that had been granted something listed it behind its first five channels. |
| BandwidthManagers.SixthChannelGains | TestBB/LibTorrent/torrent/bandwidth_manager.cpp:153-179 | A run of the manager: a peer asks on six channels, is granted some in a round and disconnects in the next; the sixth channel has then got back a thousand bytes that nobody took from it. |
| ConvertLoops.ConvertUTF8toUTF16 | TestBB/LibTorrent/torrent/ConvertUTF.cpp:336-405 | The loop consumes, writes and returns exactly what the specification of the conversion says, and touches nothing else of the target. |
| ConvertLoops.ConvertUTF16toUTF8 | TestBB/LibTorrent/torrent/ConvertUTF.cpp:214-280 | The same, with the bytes of each character written backwards. |
| ConvertLoops.ConvertUTF8toUTF32 | TestBB/LibTorrent/torrent/ConvertUTF.cpp:462-520 | The same. |
| ConvertLoops.ConvertUTF32toUTF8 | TestBB/LibTorrent/torrent/ConvertUTF.cpp:409-458 | The same. |
| Unicode.IsLegalUTF8 | TestBB/LibTorrent/torrent/ConvertUTF.cpp:295-318 | The fall-through switch decides the predicate of a legal sequence. |
| Unicode.LegalIsGrammar | TestBB/LibTorrent/torrent/ConvertUTF.cpp:295-318 | With the length its first byte asks for, a sequence is legal exactly if it is a UTF8-char of section 4 of RFC 3629. |
| Unicode.CharCodes | TestBB/LibTorrent/torrent/ConvertUTF.cpp:356-367 | The grammar admits only encodings of characters, each the encoding of its code point. |
| Unicode.CodeChars | TestBB/LibTorrent/torrent/ConvertUTF.cpp:262-272 | Every character's encoding is in the grammar and encodes that character. |
| Unicode.PackedCode | TestBB/LibTorrent/torrent/ConvertUTF.cpp:356-367 | Shifting the bytes together and subtracting the offset gives the code point. |
| ConvertUTF.Accepts8to16 | TestBB/LibTorrent/torrent/ConvertUTF.cpp:336-405 | With enough room ConvertUTF8toUTF16, strict or not, succeeds exactly on the octets of RFC 3629. |
| ConvertUTF.Accepts8to32 | TestBB/LibTorrent/torrent/ConvertUTF.cpp:462-520 | The same for ConvertUTF8toUTF32. |
| ConvertUTF.Accepts16to8 | TestBB/LibTorrent/torrent/ConvertUTF.cpp:214-280 | Strict ConvertUTF16toUTF8 succeeds exactly where all surrogates stand in pairs, as in section 2 of RFC 2781. |
| ConvertStops.Stops8to16 | TestBB/LibTorrent/torrent/ConvertUTF.cpp:336-405 | Where a call stops: what it passed are whole characters; it passed everything and succeeds, or no character starts there, and it reports an exhausted source exactly if the first byte there asks for more bytes than are left, and an illegal one otherwise. |
| ConvertStops.Stops8to32 | TestBB/LibTorrent/torrent/ConvertUTF.cpp:462-520 | The same for the conversion to UTF-32. |
| ConvertStops.Stops16to8 | TestBB/LibTorrent/torrent/ConvertUTF.cpp:214-280 | A strict call stops at the first unpaired surrogate: exhausted if it is a high one at the end, illegal otherwise. |
| ConvertStops.Lenient16 | TestBB/LibTorrent/torrent/ConvertUTF.cpp:214-280 | A lenient call writes an unpaired surrogate as three bytes and stops only for a high one at the end. |
| ConvertStops.Reads32 | TestBB/LibTorrent/torrent/ConvertUTF.cpp:409-458 | An oversize number becomes the replacement character and spoils the result; a surrogate is refused when strict and written as three bytes when lenient. |
| ConvertUTF.RoundTrip8 | TestBB/LibTorrent/torrent/ConvertUTF.cpp:214-280 | Strict ConvertUTF16toUTF8 takes the result of ConvertUTF8toUTF16 back to the original bytes. |
| ConvertUTF.RoundTrip16 | TestBB/LibTorrent/torrent/ConvertUTF.cpp:336-405 | ConvertUTF8toUTF16 takes the result of strict ConvertUTF16toUTF8 back to the original words. |
| ConvertUTF.RoundTrip32 | TestBB/LibTorrent/torrent/ConvertUTF.cpp:409-520 | Strict ConvertUTF32toUTF8 takes the result of ConvertUTF8toUTF32 back to the original bytes. |
| Transcode.ResumeTarget | TestBB/LibTorrent/torrent/ConvertUTF.cpp:374-400 | A call that runs out of room leaves the source at the start of the next character, and going on from there gives what one call would have given. |
| Transcode.ResumeSource | TestBB/LibTorrent/torrent/ConvertUTF.cpp:344-352 | A call whose source is cut off stops at the start of a character, and going on when more has arrived gives what one call would have given. |
| Transcode.ConsumedPrefix | TestBB/LibTorrent/torrent/ConvertUTF.cpp:225-273 | What a call has written is exactly the conversion of what it has consumed, unless its last character was recognized by the unit behind it only. |
| Transcode.ChunksAgree | TestBB/LibTorrent/torrent/ConvertUTF.cpp:470-495 | However the target is cut into chunks, the output is that of one call, and so is the result but for odd characters in an earlier chunk; ConvertUTF.OversizeKept says for which sources that makes a difference. |
| ConvertUTF.TidyChunks | TestBB/LibTorrent/torrent/ConvertUTF.cpp:225-273 | For the converters from UTF-8 and the strict one from UTF-16: chunks give output and result of one call, and the output is the conversion of what was consumed. |
| ConvertUTF.TidyReaders | TestBB/LibTorrent/torrent/ConvertUTF.cpp:214-405 | These converters mark no character as odd and need no unit behind a character to recognize it. |
| ConvertUTF.LenientConsumed | TestBB/LibTorrent/torrent/ConvertUTF.cpp:228-252 | For the lenient converter from UTF-16 this holds of a call exactly unless what was consumed ends in a high surrogate. |
| ConvertUTF.LenientPaired | TestBB/LibTorrent/torrent/ConvertUTF.cpp:228-252 | It holds for every amount of room if and only if every high surrogate before the last word is followed by a low one. |
| ConvertUTF.LenientCut | TestBB/LibTorrent/torrent/ConvertUTF.cpp:228-252 | An unpaired high surrogate in front of another word is consumed, but by itself is only the beginning of a character. |
| ConvertUTF.OddNumbers | TestBB/LibTorrent/torrent/ConvertUTF.cpp:428-440 | Between two places without a refused number the result is spoiled exactly if a number above 0x10FFFF stands there. |
| ConvertUTF.OversizeReported | TestBB/LibTorrent/torrent/ConvertUTF.cpp:409-458 | A call of ConvertUTF32toUTF8 that does not run out of room stops at the first number it refuses or at the end, and succeeds exactly if it reaches the end and met no number above 0x10FFFF. |
| ConvertUTF.OversizeKept | TestBB/LibTorrent/torrent/ConvertUTF.cpp:409-458 | All divisions of the target into chunks that suffice give output and result of one call if and only if the source has a number that is refused, or none above 0x10FFFF, or one at its end. |
| ConvertUTF.OversizeForgotten | TestBB/LibTorrent/torrent/ConvertUTF.cpp:428-440 | The numbers 0x110000 and 0x41, converted in two chunks, succeed where one call fails. |
| FileProgresses.FileProgress.Init | TestBB/LibTorrent/torrent/file_progress.cpp:47-113 | Progress is for every file the sum of its overlaps with the completed pieces; progress that is there is kept. |
| FileProgresses.FileProgress.Update | TestBB/LibTorrent/torrent/file_progress.cpp:131-176 | The same sum with the piece added, and an alert for exactly the files the piece touches and completes, each once. |
| FileProgresses.FileIndexAtOffset | TestBB/LibTorrent/torrent/file_storage.cpp:403-418 | The last file that begins at or before the offset contains it. |
| FileLayout.NeverAbove | TestBB/LibTorrent/torrent/file_progress.cpp:178-186 | No file is ever above its size, and it is at its size if all pieces are there. |
| FileLayout.OneMore | TestBB/LibTorrent/torrent/file_progress.cpp:131-176 | One more piece adds its overlap, whatever the order. |
| FileLayout.ReportedOnce | TestBB/LibTorrent/torrent/file_progress.cpp:161-171 | A file that is not padding or empty is reported once if the pieces complete it, and not at all if they do not or it was complete before, in any order. |
| FileLayout.WholeDownload | TestBB/LibTorrent/torrent/file_progress.cpp:131-176 | From nothing to all, in any order: every file ends complete, and each that is not padding or empty was reported exactly once. |
| FileLayout.EmptyReported | TestBB/LibTorrent/torrent/file_progress.cpp:161-171 | An empty file is reported once if one of the pieces contains its place, and never otherwise. |
| FileLayout.EmptyInside | TestBB/LibTorrent/torrent/file_progress.cpp:150-171 | Some piece contains its place exactly if the file begins inside a piece, not where one begins, and not at the end. |
| FileLayout.PieceRange | TestBB/LibTorrent/torrent/file_storage.cpp:109-123 | Pieces follow each other without gaps up to the total size. |
| ChainedBuffers.ChainedBuffer.PopFront | TestBB/LibTorrent/torrent/chained_buffer.cpp:38-65 | Exactly the first bytes are dropped, and exactly the front buffers that became empty are freed, in order. |
| ChainedBuffers.ChainedBuffer.BuildVec | TestBB/LibTorrent/torrent/chained_buffer.cpp:160-175 | The slices hold exactly the first bytes of the queue. |
| ChainedBuffers.ChainedBuffer.AppendBuffer | TestBB/LibTorrent/torrent/chained_buffer.cpp:67-86 | The used bytes go to the back of the queue; counters and the account of buffers stay exact. |
| ChainedBuffers.ChainedBuffer.PrependBuffer | TestBB/LibTorrent/torrent/chained_buffer.cpp:88-106 | The used bytes go to the front of the queue. |
| ChainedBuffers.ChainedBuffer.AllocateAppendix | TestBB/LibTorrent/torrent/chained_buffer.cpp:133-144 | Room at the end of the last buffer is taken exactly if there is enough. |
| ChainedBuffers.ChainedBuffer.Append | TestBB/LibTorrent/torrent/chained_buffer.cpp:121-128 | The bytes are copied to the back of the queue exactly if the last buffer has room for them. |
| ChainedBuffers.ChainedBuffer.Clear | TestBB/LibTorrent/torrent/chained_buffer.cpp:177-187 | Every buffer ever handed over has then been freed exactly once. |
| ChainedBuffers.GatherMore | TestBB/LibTorrent/torrent/chained_buffer.cpp:160-175 | A slice more gathers its bytes behind the others. |
| SendQueue.BtPeerConnection.SendBuffer | TestBB/LibTorrent/torrent/peer_connection.cpp:5940-5980 | The bytes go to the back of the queue, first into the room the last buffer has; if buffers run out, a beginning of them does and the connection is given up, which frees the whole queue if no write is outstanding and leaves the payload ranges. The ranges are right afterwards exactly if that did not happen or there was none. |
| SendQueue.BtPeerConnection.Disconnect | TestBB/LibTorrent/torrent/peer_connection.cpp:4078-4128 | The first call frees the send buffer unless a write is outstanding, later calls do nothing; the ranges then are right exactly if nothing was freed or there was none. |
| SendQueue.BtPeerConnection.SetupSend | TestBB/LibTorrent/torrent/peer_connection.cpp:5562-5714 | A write is started if none is outstanding, something is queued and quota and barriers allow to send. |
| SendQueue.BtPeerConnection.WritePiece | TestBB/LibTorrent/torrent/bt_peer_connection.cpp:2506-2570 | The message is queued and its data is marked as payload. The ranges mark exactly the piece data, and those of check_invariant are in order, if and only if buffers sufficed, or a write was outstanding, or the connection was given up before, or no range was queued; for a merkle torrent they are also in order by accident when the hash list queued behind nothing is longer than they reach. If buffers sufficed a write is outstanding afterwards exactly if one was, or the connection is not given up and there is leave to send. |
| SendQueue.OutOfBuffers | TestBB/LibTorrent/torrent/bt_peer_connection.cpp:3656-3663 | A piece waits in the queue and for the next one no buffer is left: the ranges become (13, 16384) and (0, 16384), which check_invariant refuses. |
| SendQueue.StrayRanges | TestBB/LibTorrent/torrent/bt_peer_connection.cpp:2569-2569 | A range pushed behind ranges of bytes that are gone: together they never mark exactly the piece data, and are in order exactly if the old ones end before it. |
| SendQueue.MarksLeft | TestBB/LibTorrent/torrent/bt_peer_connection.cpp:3595-3627 | Ranges that mark exactly the piece data still do after the first bytes were sent. |
| SendQueue.BtPeerConnection.OnSendData | TestBB/LibTorrent/torrent/peer_connection.cpp:6493-6560 | Exactly the payload bytes among those sent are reported as payload and the others as protocol; the marks move with the bytes; what is reported and what is still queued make up all payload written; the next write is outstanding exactly if bytes are left and there is leave to send. After an error, and when the connection is being given up, nothing is reported, and the rest of the queue is freed unless the error comes after the connection was given up. |
| SendQueue.BtPeerConnection.OnSent | TestBB/LibTorrent/torrent/bt_peer_connection.cpp:3584-3638 | On an error everything counts as protocol and the marks stay; otherwise the marks that are sent go and the others shift. |
| SendQueue.LeftOrdered | TestBB/LibTorrent/torrent/bt_peer_connection.cpp:3656-3663 | The ranges stay sorted, disjoint and within the send buffer. |
| SendQueue.PartsPayload | TestBB/LibTorrent/torrent/bt_peer_connection.cpp:3600-3624 | What the loop counts range by range is the number of marked bytes. |
| SendQueue.PayloadSplit | TestBB/LibTorrent/torrent/bt_peer_connection.cpp:3595-3630 | What is sent and what is left make up the payload that was queued. |

## Left out

- m_volatile_size: insertion and eviction adjust it by different rules and check_invariant does not constrain it.
- block_cache::clear, evict_piece on a piece with hung write jobs, async_delete_files and storage fences.
- The -2 result of copy_from_piece, which keeps the references it took: allocation succeeds here.
- try_evict_one_volatile is an eviction like any other in the step system; its own counters are not modelled.
- The branch of try_flush_hashed that flushes several pieces in one call; `DiskThreads.FlushIovec` is stated for any
  list of block indices.
- What flush_range does with a piece that blocks_flushed has freed, and what flush_piece does with its piece after
  flush_range has returned (disk_io_thread.cpp:816-824): there the source reads an entry that may be gone, and the step
  system has no step.
- Running with the read cache turned off, and hash jobs hung on a piece, which this source never does. A hung write
  job covers one block, because add_dirty_block takes aligned blocks only.
- Copying the bytes in copy_from_piece, file and socket I/O, condition variables, statistics, logging and mmap.
- Pieces are values in the map of the cache class: aliasing of piece pointers is not captured. The same holds for the
  memory of the buffers in the send queue, which is a value in its chain.
- SHA-1, RC4 and Diffie-Hellman: a hash is the list of what was fed to it.
- Bencode.IntegerToStr: does not accept the smallest 64-bit integer, whose negation overflows in the source.
- BdecodeTree.LinksFit: asks for a buffer that leaves room for three tokens for each level of nesting, which can be
  checked before the call; the exact condition, on the tokens that are left, is `BdecodeTree.LinksFitExactly`.
- BencodeEncoded.RoundTrip: is stated for entries within the size, depth, token and string length limits and not for
  the empty string on its own; entries that only `operator==` would tell apart do not occur, as equality is that of
  values.
- BandwidthManagers.Conservation: takes the limits of the channels as fixed between rounds; a change of a limit by
  `throttle` is not in the ledger.
- bandwidth_manager statistics, queue sizes and logging.
- ConvertUTF16toUTF32 and ConvertUTF32toUTF16, which have the same form. Setting and masking bits of a byte is written
  as arithmetic.
- file_progress.hpp is not part of this model, nor are export_progress and the alert queue behind the list of reports.
- The merkle hash list of write_piece is a parameter, and so is what quota, send barrier and corking allow to send; RC4,
  the other messages of a peer connection, filling the send buffer again after a write, and what else disconnect does
  are left out.
