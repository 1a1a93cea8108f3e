/** The steps that put dirty blocks into the cache and take pieces out of it. */
module CacheSteps {
  import opened CacheModel
  import opened CacheSpec
  import opened BlockEdits
  import opened CacheOps
  import opened Eviction
  import opened DiskProtocol
  import opened ProtocolFrames

  // --------------------------------------------------------- add_dirty_block

  ghost predicate CanAdd(c: Cache, id: PieceId, size: int, block: nat, buf: Buf, now: int) {
    && CacheInv(c) && size > 0 && now >= c.clock && buf.Buf? && Outside(c, buf.addr)
    && |c.lru| == NUM_LRUS && c.blockSize > 0
    && (id in c.pieces ==>
          && 0 <= c.pieces[id].cacheState < NUM_LRUS
          && block < |c.pieces[id].blocks| && c.pieces[id].blocks[block].refcount == 0 && !c.pieces[id].hashingDone)
    && (id !in c.pieces ==> block < BlocksFor(size, c.blockSize))
  }

  /** `mid` is the cache after the piece was found or created and others evicted. */
  ghost predicate CanWriteBlock(s: State, id: PieceId, size: int, requester: nat, block: nat, buf: Buf, job: WriteJob,
                                mid: Cache, now: int) {
    && CanAdd(s.c, id, size, block, buf, now)
    && job.block == block && job.id !in s.hungAt
    && var d := AllocatePiece(s.c, id, size, requester, WRITE_LRU, now);
       && Evicts(d, mid) && CacheInv(mid)
       && id in d.pieces && id in mid.pieces && mid.pieces[id] == d.pieces[id]
  }

  ghost predicate Ready(c: Cache, id: PieceId, block: nat, buf: Buf, now: int) {
    && CacheInv(c) && id in c.pieces && block < |c.pieces[id].blocks| && now >= c.clock
    && c.pieces[id].cacheState == WRITE_LRU && c.pieces[id].blocks[block].refcount == 0
    && buf.Buf? && Outside(c, buf.addr)
  }

  lemma NewBlocks(size: int, blockSize: int, requester: nat, state: int, now: int)
    requires size > 0 && blockSize > 0
    ensures var p := NewPiece(size, blockSize, requester, state, now);
      && |p.blocks| == BlocksFor(size, blockSize) && (forall k :: 0 <= k < |p.blocks| ==> p.blocks[k] == EMPTY)
      && p.pieceRefcount == 0 && !p.hashing && p.hash.None? && !p.outstandingRead && p.jobs == [] && p.readJobs == []
      && p.size == size && p.cacheState == state && p.expire == now && !p.hashingDone && !p.markedForEviction
      && p.refcount == 0
  {}

  lemma AllocatedFacts(c: Cache, id: PieceId, size: int, requester: nat, block: nat, buf: Buf, now: int)
    requires CanAdd(c, id, size, block, buf, now)
    ensures var d := AllocatePiece(c, id, size, requester, WRITE_LRU, now);
      && Ready(d, id, block, buf, now) && OthersShrink(c, d, id)
  {
    hide CacheInv, PieceOk, NewPiece, Outside, AllocatePiece, OthersShrink, BlocksFor;
    var d := AllocatePiece(c, id, size, requester, WRITE_LRU, now);
    AllocateKeeps(c, id, size, requester, WRITE_LRU, now);
    AllocateEffect(c, id, size, requester, WRITE_LRU, now);
    NewBlocks(size, c.blockSize, requester, WRITE_LRU, now);
    PieceFacts(d, id);
    AllocateFrame(c, id, size, requester, buf.addr, now);
    OthersSame(c, d, id);
  }

  lemma AllocateFrame(c: Cache, id: PieceId, size: int, requester: nat, addr: nat, now: int)
    requires CacheInv(c) && size > 0 && now >= c.clock && Outside(c, addr) && |c.lru| == NUM_LRUS && c.blockSize > 0
    requires id in c.pieces ==> 0 <= c.pieces[id].cacheState < NUM_LRUS
    ensures var d := AllocatePiece(c, id, size, requester, WRITE_LRU, now);
      Outside(d, addr) && d.blockSize == c.blockSize && d.clock <= now
  {
    hide CacheInv, Relink, Addrs;
    AllocateEffect(c, id, size, requester, WRITE_LRU, now);
    NewBlocks(size, c.blockSize, requester, WRITE_LRU, now);
    var d := AllocatePiece(c, id, size, requester, WRITE_LRU, now);
    hide NewPiece;
    if id !in c.pieces { assert Addrs(d.pieces[id].blocks) == {} by { NoAddrs(d.pieces[id].blocks); } }
  }

  lemma NoAddrs(bs: seq<Block>)
    requires forall k :: 0 <= k < |bs| ==> bs[k] == EMPTY
    ensures Addrs(bs) == {}
  {}

  lemma MidReady(d: Cache, mid: Cache, id: PieceId, block: nat, buf: Buf, now: int)
    requires Ready(d, id, block, buf, now) && Evicts(d, mid) && CacheInv(mid) && id in mid.pieces && mid.pieces[id] == d.pieces[id]
    ensures Ready(mid, id, block, buf, now)
  {
    hide CacheInv, Outside, Shrunk, Droppable;
  }

  ghost function WriteBlock(s: State, id: PieceId, size: int, requester: nat, block: nat, buf: Buf, job: WriteJob,
                            mid: Cache, now: int): State
    requires CanWriteBlock(s, id, size, requester, block, buf, job, mid, now)
  {
    AllocatedFacts(s.c, id, size, requester, block, buf, now);
    MidReady(AllocatePiece(s.c, id, size, requester, WRITE_LRU, now), mid, id, block, buf, now);
    s.(c := AddDirty(mid, id, block, buf, job, now),
       log := s.log + [HungJob(id, job)],
       hungAt := s.hungAt[job.id := |s.log|])
  }

  /** What add_dirty_block does to the piece. */
  lemma AddDirtyEffect(c: Cache, id: PieceId, block: nat, buf: Buf, job: WriteJob, now: int)
    requires Ready(c, id, block, buf, now)
    ensures var d := AddDirty(c, id, block, buf, job, now); var p := c.pieces[id];
      && CacheInv(d) && OthersShrink(c, d, id) && id in d.pieces
      && d.pieces[id] == p.(blocks := p.blocks[block := Block(buf, 0, true, false)], jobs := p.jobs + [job],
           hash := if block == 0 && p.hash.None? && !p.hashingDone then Some(PartialHash(0, [])) else p.hash,
           numBlocks := d.pieces[id].numBlocks, numDirty := d.pieces[id].numDirty, pinned := d.pieces[id].pinned,
           cacheState := d.pieces[id].cacheState, expire := d.pieces[id].expire)
      && d.pieces[id].cacheState == WRITE_LRU
  {
    hide CacheInv, PieceOk, Outside, Replaced, UpdateState, Relink, OthersShrink;
    ReplacedLemma(c, id, block, buf);
    var d := Replaced(c, id, block, buf);
    HungLemma(d, id, block, job);
    var e := Hung(d, id, block, job);
    PieceFacts(e, id);
    UpdateStateKeeps(e, id, now);
    UpdateStateSame(e, id, now);
    var f := UpdateState(e, id, now);
    PieceFacts(f, id);
    MoveKeeps(f, id, WRITE_LRU, now);
    OthersSame(c, AddDirty(c, id, block, buf, job, now), id);
  }

  /** The piece becomes the most recently used of the write list. */
  lemma AddDirtyPlace(c: Cache, id: PieceId, block: nat, buf: Buf, job: WriteJob, now: int)
    requires Ready(c, id, block, buf, now)
    ensures var d := AddDirty(c, id, block, buf, job, now);
      && |d.lru| == NUM_LRUS && d.lru[WRITE_LRU] != [] && d.lru[WRITE_LRU][|d.lru[WRITE_LRU]| - 1] == id
      && id in d.pieces && d.pieces[id].expire == now == d.clock
  {
    hide CacheInv, PieceOk, Outside, Replaced, UpdateState, MoveTo;
    ReplacedLemma(c, id, block, buf);
    var d := Replaced(c, id, block, buf);
    HungLemma(d, id, block, job);
    var e := Hung(d, id, block, job);
    PieceFacts(e, id);
    UpdateStateKeeps(e, id, now);
    UpdateStateSame(e, id, now);
    var f := UpdateState(e, id, now);
    PieceFacts(f, id);
    MoveIs(f, id, WRITE_LRU, now);
  }

  lemma UpdateStateSame(c: Cache, id: PieceId, now: int)
    requires |c.lru| == NUM_LRUS && id in c.pieces && 0 <= c.pieces[id].cacheState < NUM_LRUS
    ensures var d := UpdateState(c, id, now);
      && d.pieces == c.pieces[id := d.pieces[id]] && d.blockSize == c.blockSize && (d.clock == c.clock || d.clock == now)
      && d.pieces[id] == c.pieces[id].(cacheState := d.pieces[id].cacheState, expire := d.pieces[id].expire)
  {
    hide Without;
    assert c.pieces[id := c.pieces[id]] == c.pieces;
  }

  lemma WriteLocal(p: Piece, q: Piece, id: PieceId, block: nat, buf: Buf, job: WriteJob, fl: seq<Flight>, log: seq<Event>,
                   hungAt: map<nat, nat>, blockSize: int)
    requires Local(p, id, fl, log, hungAt, blockSize) && PieceOk(p, blockSize) && p.size > 0
    requires block < |p.blocks| && p.blocks[block].refcount == 0 && job.block == block && job.id !in hungAt
    requires q.blocks == p.blocks[block := Block(buf, 0, true, false)] && q.jobs == p.jobs + [job] && q.readJobs == p.readJobs
    requires q.size == p.size && q.pieceRefcount == p.pieceRefcount && q.hashing == p.hashing && q.outstandingRead == p.outstandingRead
    requires q.hash == if block == 0 && p.hash.None? && !p.hashingDone then Some(PartialHash(0, [])) else p.hash
    ensures Local(q, id, fl, log + [HungJob(id, job)], hungAt[job.id := |log|], blockSize)
  {
    hide WroteSince, Loads;
    var newLog, newHung := log + [HungJob(id, job)], hungAt[job.id := |log|];
    assert BlockOk(p.blocks[block]);
    forall k | 0 <= k < |q.blocks| ensures Matches(q, k, Loads(fl, id, k)) { assert Matches(p, k, Loads(fl, id, k)); }
    forall i | 0 <= i < |fl| && fl[i].id == id ensures FlightOk(fl[i], q, newLog, newHung, blockSize) {
      assert block !in fl[i].blocks by {
        if block in fl[i].blocks {
          assert Matches(p, block, Loads(fl, id, block));
          LoadsAtLeast(fl, i, id, block);
        }
      }
      FlightLater(fl[i], p, log, hungAt, newLog, newHung, blockSize);
      NewJobFlight(fl[i], p, q, block, job, newLog, newHung, blockSize);
    }
  }

  lemma NewJobFlight(f: Flight, p: Piece, q: Piece, block: nat, job: WriteJob, log: seq<Event>, hungAt: map<nat, nat>, blockSize: int)
    requires FlightOk(f, p, log, hungAt, blockSize) && block !in f.blocks && job.block == block && block < |p.blocks|
    requires |q.blocks| == |p.blocks| && (forall k :: 0 <= k < |p.blocks| && k != block ==> q.blocks[k] == p.blocks[k])
    requires q.jobs == p.jobs + [job] && q.size == p.size && (p.hash.Some? ==> q.hash == p.hash)
    ensures FlightOk(f, q, log, hungAt, blockSize)
  {
    hide WroteSince;
  }

  /** A piece that is new to the cache. */
  lemma FreshLocal(s: State, id: PieceId, p: Piece)
    requires Inv(s) && id !in s.c.pieces
    requires forall k :: 0 <= k < |p.blocks| ==> p.blocks[k] == EMPTY
    requires p.pieceRefcount == 0 && !p.hashing && p.hash.None? && !p.outstandingRead && p.jobs == [] && p.readJobs == []
    ensures Local(p, id, s.fl, s.log, s.hungAt, s.c.blockSize)
  {
    hide CacheInv, FlightOk, Loads, LogOk, Ledger;
    forall i | 0 <= i < |s.fl| ensures s.fl[i].id != id {}
    forall k | 0 <= k < |p.blocks| ensures Matches(p, k, Loads(s.fl, id, k)) { LoadsNone(s.fl, id, k); }
  }

  lemma WriteBlockPiece(s: State, id: PieceId, size: int, requester: nat, block: nat, buf: Buf, job: WriteJob, mid: Cache, now: int)
    requires Inv(s) && CanWriteBlock(s, id, size, requester, block, buf, job, mid, now)
    ensures var t := WriteBlock(s, id, size, requester, block, buf, job, mid, now);
      && CacheInv(t.c) && OthersShrink(s.c, t.c, id) && id in t.c.pieces && t.c.blockSize == s.c.blockSize
      && Local(t.c.pieces[id], id, t.fl, t.log, t.hungAt, t.c.blockSize)
      && t.c.pieces[id].readJobs == (if id in s.c.pieces then s.c.pieces[id].readJobs else [])
  {
    hide CacheInv, PieceOk, Local, LogOk, OthersShrink, Issued, Evicts, AddDirty, AllocatePiece, Ready, NewPiece, Outside, Ledger;
    AllocatedFacts(s.c, id, size, requester, block, buf, now);
    AllocateEffect(s.c, id, size, requester, WRITE_LRU, now);
    var d := AllocatePiece(s.c, id, size, requester, WRITE_LRU, now);
    MidReady(d, mid, id, block, buf, now);
    AllocatedLocal(s, id, size, requester, WRITE_LRU, now);
    AddDirtyEffect(mid, id, block, buf, job, now);
    var e := WriteBlock(s, id, size, requester, block, buf, job, mid, now).c;
    PieceFacts(mid, id);
    ReadyFacts(mid, id, block, buf, now);
    OthersEvict(d, mid, id);
    OthersTrans(s.c, d, mid, id);
    OthersTrans(s.c, mid, e, id);
    SameBlockSize(s.c, mid, id);
    SameBlockSize(s.c, e, id);
    WriteLocal(d.pieces[id], e.pieces[id], id, block, buf, job, s.fl, s.log, s.hungAt, s.c.blockSize);
  }

  lemma WriteBlockKeeps(s: State, id: PieceId, size: int, requester: nat, block: nat, buf: Buf, job: WriteJob, mid: Cache, now: int)
    requires Inv(s) && CanWriteBlock(s, id, size, requester, block, buf, job, mid, now)
    ensures Inv(WriteBlock(s, id, size, requester, block, buf, job, mid, now))
  {
    hide CacheInv, Local, LogOk, OthersShrink, SameElsewhere, Issued, CanAdd, AddDirty, AllocatePiece, Ready, Queued;
    WriteBlockPiece(s, id, size, requester, block, buf, job, mid, now);
    var t := WriteBlock(s, id, size, requester, block, buf, job, mid, now);
    NoFlightChange(s.fl, id);
    LogOkHung(s.log, id, job);
    LedgerSame(s, t, id);
    Assemble(s, t, id);
  }

  lemma ReadyFacts(c: Cache, id: PieceId, block: nat, buf: Buf, now: int)
    requires Ready(c, id, block, buf, now)
    ensures block < |c.pieces[id].blocks| && c.pieces[id].blocks[block].refcount == 0
  {}

  lemma AllocatedLocal(s: State, id: PieceId, size: int, requester: nat, state: int, now: int)
    requires Inv(s) && |s.c.lru| == NUM_LRUS && Allocatable(state) && size > 0 && s.c.blockSize > 0
    requires id in s.c.pieces ==> 0 <= s.c.pieces[id].cacheState < NUM_LRUS
    ensures var d := AllocatePiece(s.c, id, size, requester, state, now);
      && id in d.pieces && Local(d.pieces[id], id, s.fl, s.log, s.hungAt, s.c.blockSize)
      && d.pieces[id].readJobs == (if id in s.c.pieces then s.c.pieces[id].readJobs else [])
      && d.blockSize == s.c.blockSize
  {
    hide CacheInv, LogOk, Ledger, Local, Relink, BlocksFor;
    AllocateEffect(s.c, id, size, requester, state, now);
    var d := AllocatePiece(s.c, id, size, requester, state, now);
    if id in s.c.pieces {
      LocalSame(s.c.pieces[id], d.pieces[id], id, s.fl, s.log, s.hungAt, s.c.blockSize);
    } else {
      NewBlocks(size, s.c.blockSize, requester, state, now);
      hide NewPiece;
      FreshLocal(s, id, d.pieces[id]);
    }
  }

  lemma NoFlightChange(fl: seq<Flight>, id: PieceId)
    ensures SameElsewhere(fl, fl, id)
  {}

  lemma LogOkHung(log: seq<Event>, id: PieceId, job: WriteJob)
    requires LogOk(log)
    ensures LogOk(log + [HungJob(id, job)])
  {
    var newLog := log + [HungJob(id, job)];
    DigestsKept(log, [HungJob(id, job)]);
    forall d | 0 <= d < |newLog| && newLog[d].Done? && newLog[d].ok
      ensures exists h, m :: 0 <= h < m < d && newLog[h] == HungJob(newLog[d].id, newLog[d].job)
                         && newLog[m] == Wrote(newLog[d].id, newLog[d].job.block, newLog[d].data)
    {
      assert newLog[d] == log[d];
      var h, m :| 0 <= h < m < d && log[h] == HungJob(log[d].id, log[d].job)
                         && log[m] == Wrote(log[d].id, log[d].job.block, log[d].data);
      assert newLog[h] == log[h] && newLog[m] == log[m];
    }
  }

  /** No read job moved. */
  lemma LedgerSame(s: State, t: State, id: PieceId)
    requires Ledger(s) && t.submitted == s.submitted && t.completed == s.completed && t.failed == s.failed
    requires forall j: ReadJob :: Issued(t.fl, j) == Issued(s.fl, j)
    requires (if id in s.c.pieces then s.c.pieces[id].readJobs else []) == (if id in t.c.pieces then t.c.pieces[id].readJobs else [])
    ensures forall j: ReadJob :: j.piece == id ==>
      t.submitted[j] == t.completed[j] + t.failed[j] + Issued(t.fl, j) + Queued(t.c, j)
  {
    hide Issued;
    forall j: ReadJob | j.piece == id
      ensures t.submitted[j] == t.completed[j] + t.failed[j] + Issued(t.fl, j) + Queued(t.c, j)
    {
      assert s.submitted[j] == s.completed[j] + s.failed[j] + Issued(s.fl, j) + Queued(s.c, j);
    }
  }

  // ---------------------------------------------------- steps without a flight

  /** A locked section that only changed the cache, and of piece `id` nothing that a
      flight depends on. */
  lemma Quiet(s: State, d: Cache, id: PieceId)
    requires Inv(s) && CacheInv(d) && OthersShrink(s.c, d, id)
    requires id in d.pieces ==> Local(d.pieces[id], id, s.fl, s.log, s.hungAt, d.blockSize)
    requires id !in d.pieces ==> forall i :: 0 <= i < |s.fl| ==> s.fl[i].id != id
    requires (if id in s.c.pieces then s.c.pieces[id].readJobs else []) == (if id in d.pieces then d.pieces[id].readJobs else [])
    ensures Inv(s.(c := d))
  {
    hide CacheInv, Local, LogOk, OthersShrink, SameElsewhere, Issued;
    NoFlightChange(s.fl, id);
    LedgerSame(s, s.(c := d), id);
    Assemble(s, s.(c := d), id);
  }

  lemma ReadJobsHeld(s: State, id: PieceId)
    requires Inv(s) && id in s.c.pieces
    ensures Local(s.c.pieces[id], id, s.fl, s.log, s.hungAt, s.c.blockSize)
  {
    hide CacheInv, Local, LogOk, Ledger;
  }

  /** A buffer is taken from the pool. */
  lemma AllocateBufferKeeps(s: State, addr: nat)
    requires Inv(s)
    ensures Inv(s.(c := s.c.(pool := s.c.pool + {addr})))
  {
    hide CacheInv, Local, LogOk, Issued, PieceOk;
    var d := s.c.(pool := s.c.pool + {addr});
    var id := PieceId(0, 0);
    PoolGrows(s.c, addr);
    OthersSame(s.c, d, id);
    if id !in d.pieces { AbsentNoFlights(s, id); }
    Quiet(s, d, id);
  }

  lemma AbsentNoFlights(s: State, id: PieceId)
    requires Inv(s) && id !in s.c.pieces
    ensures forall i :: 0 <= i < |s.fl| ==> s.fl[i].id != id
  {
    hide CacheInv, Local, LogOk, Ledger;
  }

  lemma PoolGrows(c: Cache, addr: nat)
    requires CacheInv(c)
    ensures CacheInv(c.(pool := c.pool + {addr}))
  {
    hide CountersOk, ListsOk, SortedByExpire, PiecesOk, GhostsBounded, Addrs, DistinctBufs;
  }

  /** Eviction, in whatever order and amount, disturbs no thread. */
  lemma EvictKeeps(s: State, mid: Cache)
    requires Inv(s) && Evicts(s.c, mid) && CacheInv(mid)
    ensures Inv(s.(c := mid))
  {
    hide CacheInv, Local, LogOk, Issued, Evicts, Shrunk, OthersShrink;
    var id := PieceId(0, 0);
    OthersEvict(s.c, mid, id);
    SameBlockSize(s.c, mid, id);
    EvictPieceLocal(s, mid, id);
    Quiet(s, mid, id);
  }

  lemma EvictPieceLocal(s: State, mid: Cache, id: PieceId)
    requires Inv(s) && Evicts(s.c, mid)
    ensures id in mid.pieces ==> id in s.c.pieces && Local(mid.pieces[id], id, s.fl, s.log, s.hungAt, s.c.blockSize)
                                 && mid.pieces[id].readJobs == s.c.pieces[id].readJobs
    ensures id !in mid.pieces ==> (forall i :: 0 <= i < |s.fl| ==> s.fl[i].id != id)
                                  && (id in s.c.pieces ==> s.c.pieces[id].readJobs == [])
  {
    hide CacheInv, Local, LogOk, Issued, PieceOk, Outside;
    if id in mid.pieces {
      LocalShrunk(s.c.pieces[id], mid.pieces[id], id, s.fl, s.log, s.hungAt, s.c.blockSize);
    } else if id in s.c.pieces {
      PieceFacts(s.c, id);
      assert OkToEvict(s.c.pieces[id], true);
      forall i | 0 <= i < |s.fl| ensures s.fl[i].id != id {
        NoFlights(s.c.pieces[id], id, s.fl, s.log, s.hungAt, s.c.blockSize, i);
      }
    } else {
      AbsentNoFlights(s, id);
    }
  }

  /** cache_hit. */
  lemma HitKeeps(s: State, id: PieceId, requester: nat, volatileRead: bool, now: int)
    requires Inv(s) && id in s.c.pieces && now >= s.c.clock
    ensures |s.c.lru| == NUM_LRUS && 0 <= s.c.pieces[id].cacheState < NUM_LRUS
    ensures Inv(s.(c := CacheHit(s.c, id, requester, volatileRead, now)))
  {
    hide CacheInv, Local, LogOk, Issued, PieceOk, CacheHit, OthersShrink;
    PieceFacts(s.c, id);
    CacheHitKeeps(s.c, id, requester, volatileRead, now);
    CacheHitEffect(s.c, id, requester, volatileRead, now);
    var d := CacheHit(s.c, id, requester, volatileRead, now);
    HitBlockSize(s.c, id, requester, volatileRead, now);
    OthersSame(s.c, d, id);
    LocalSame(s.c.pieces[id], d.pieces[id], id, s.fl, s.log, s.hungAt, s.c.blockSize);
    Quiet(s, d, id);
  }

  lemma HitBlockSize(c: Cache, id: PieceId, requester: nat, volatileRead: bool, now: int)
    requires |c.lru| == NUM_LRUS && id in c.pieces && 0 <= c.pieces[id].cacheState < NUM_LRUS
    ensures var d := CacheHit(c, id, requester, volatileRead, now);
      d.blockSize == c.blockSize && d.clock <= (if now >= c.clock then now else c.clock) && d.pool == c.pool
  {
    hide Relink;
  }

  /** update_cache_state. */
  lemma UpdateKeeps(s: State, id: PieceId, now: int)
    requires Inv(s) && id in s.c.pieces && now >= s.c.clock
    ensures |s.c.lru| == NUM_LRUS && 0 <= s.c.pieces[id].cacheState < NUM_LRUS
    ensures Inv(s.(c := UpdateState(s.c, id, now)))
  {
    hide CacheInv, Local, LogOk, Issued, PieceOk, UpdateState, OthersShrink;
    PieceFacts(s.c, id);
    UpdateStateKeeps(s.c, id, now);
    UpdateStateSame(s.c, id, now);
    var d := UpdateState(s.c, id, now);
    OthersSame(s.c, d, id);
    LocalSame(s.c.pieces[id], d.pieces[id], id, s.fl, s.log, s.hungAt, s.c.blockSize);
    Quiet(s, d, id);
  }

  /** maybe_free_piece. */
  lemma FreeKeeps(s: State, id: PieceId)
    requires Inv(s) && id in s.c.pieces
    ensures Inv(s.(c := MaybeFree(s.c, id)))
  {
    hide CacheInv, Local, LogOk, Issued, PieceOk, MaybeFree, OthersShrink, Frees;
    MaybeFreeLemma(s.c, id);
    var d := MaybeFree(s.c, id);
    OthersFree(s.c, d, id);
    SameBlockSize(s.c, d, id);
    LocalFrees(s.c, d, id, s.fl, s.log, s.hungAt);
    Quiet(s, d, id);
  }

  /** mark_for_eviction, of a piece no write job waits for. */
  lemma MarkKeeps(s: State, id: PieceId, mode: EvictionMode)
    requires Inv(s) && id in s.c.pieces && s.c.pieces[id].jobs == []
    ensures Inv(s.(c := MarkForEviction(s.c, id, mode)))
  {
    hide CacheInv, Local, LogOk, Issued, PieceOk, MarkForEviction, OthersShrink, Marks;
    MarkLemma(s.c, id, mode);
    var d := MarkForEviction(s.c, id, mode);
    OthersMark(s.c, d, id);
    SameBlockSize(s.c, d, id);
    LocalMarks(s, d, id);
    Quiet(s, d, id);
  }

  lemma OthersMark(c: Cache, d: Cache, id: PieceId)
    requires Marks(c, d, id)
    ensures OthersShrink(c, d, id)
  {
    hide Shrunk, Droppable;
  }

  lemma LocalMarks(s: State, d: Cache, id: PieceId)
    requires Inv(s) && id in s.c.pieces && Marks(s.c, d, id) && s.c.pieces[id].jobs == []
    ensures id in d.pieces ==> Local(d.pieces[id], id, s.fl, s.log, s.hungAt, s.c.blockSize)
                               && d.pieces[id].readJobs == s.c.pieces[id].readJobs
    ensures id !in d.pieces ==> s.c.pieces[id].readJobs == [] && forall i :: 0 <= i < |s.fl| ==> s.fl[i].id != id
  {
    hide CacheInv, Local, LogOk, Issued, PieceOk, Shrunk, Droppable;
    PieceFacts(s.c, id);
    var p := s.c.pieces[id];
    ReadJobsHeld(s, id);
    if id in d.pieces {
      LocalMarked(p, d.pieces[id], id, s.fl, s.log, s.hungAt, s.c.blockSize);
    } else {
      forall i | 0 <= i < |s.fl| ensures s.fl[i].id != id {
        NoFlights(p, id, s.fl, s.log, s.hungAt, s.c.blockSize, i);
      }
    }
  }

  lemma LocalMarked(p: Piece, q: Piece, id: PieceId, fl: seq<Flight>, log: seq<Event>, hungAt: map<nat, nat>, blockSize: int)
    requires Local(p, id, fl, log, hungAt, blockSize) && PieceOk(p, blockSize)
    requires q == p.(blocks := q.blocks, numBlocks := q.numBlocks, numDirty := q.numDirty, pinned := q.pinned,
                     refcount := q.refcount, cacheState := q.cacheState, hash := q.hash, jobs := q.jobs,
                     markedForEviction := q.markedForEviction, markedForDeletion := q.markedForDeletion)
    requires |q.blocks| == |p.blocks| && q.jobs == p.jobs && p.jobs == []
    requires q.hash == p.hash || (OkToEvict(p, true) && q.hash.None?)
    requires forall k :: 0 <= k < |q.blocks| ==> q.blocks[k] == if p.blocks[k].refcount > 0 then p.blocks[k] else EMPTY
    ensures Local(q, id, fl, log, hungAt, blockSize)
  {
    hide Holds, WroteSince, Loads;
    forall k | 0 <= k < |q.blocks| ensures Matches(q, k, Loads(fl, id, k)) {
      assert Matches(p, k, Loads(fl, id, k));
      assert BlockOk(p.blocks[k]);
    }
    forall i | 0 <= i < |fl| && fl[i].id == id ensures FlightOk(fl[i], q, log, hungAt, blockSize) {
      assert FlightOk(fl[i], p, log, hungAt, blockSize);
      HeldStays(fl[i], p, q, fl);
      if q.hash != p.hash { NoFlights(p, id, fl, log, hungAt, blockSize, i); }
    }
  }

  lemma HeldStays(f: Flight, p: Piece, q: Piece, fl: seq<Flight>)
    requires Holds(f, p) && f in fl && PieceLoads(p, f.id, fl) && |q.blocks| == |p.blocks|
    requires forall k :: 0 <= k < |q.blocks| && p.blocks[k].refcount > 0 ==> q.blocks[k] == p.blocks[k]
    ensures Holds(f, q)
  {
    hide Loads;
    forall i | 0 <= i < |f.blocks| ensures q.blocks[f.blocks[i]].buf == f.bufs[i] {
      var k := f.blocks[i];
      var j :| 0 <= j < |fl| && fl[j] == f;
      assert k in f.blocks;
      LoadsAtLeast(fl, j, f.id, k);
      assert Matches(p, k, Loads(fl, f.id, k));
    }
  }
}
