/** The operations of the block cache that read jobs use, over the cache object:
    insert_blocks, try_read, copy_from_piece and reclaim_block, and the loop of
    maybe_issue_queued_read_jobs. */
module CacheReads {
  import opened CacheModel
  import opened CacheSpec
  import opened BlockEdits
  import opened CacheOps
  import opened Eviction
  import opened BlockCaches
  import opened DiskProtocol
  import opened ProtocolFrames
  import S = CacheSteps
  import H = HashSteps
  import R = ReadSteps

  // --------------------------------------------------------------- insert_blocks

  ghost predicate CanInsertRun(c: Cache, id: PieceId, k: nat, bufs: seq<Buf>) {
    && CacheInv(c) && id in c.pieces && k + |bufs| <= |c.pieces[id].blocks| && !IsGhost(c.pieces[id].cacheState)
    && (forall x :: 0 <= x < |bufs| ==> bufs[x].Buf? && Outside(c, bufs[x].addr))
    && (forall x, y :: 0 <= x < y < |bufs| ==> bufs[x].addr != bufs[y].addr)
  }

  lemma InsertRunNext(c: Cache, id: PieceId, k: nat, bufs: seq<Buf>, inc: bool)
    requires CanInsertRun(c, id, k, bufs) && bufs != []
    ensures CanInsertRun(InsertOne(c, id, k, bufs[0], inc), id, k + 1, bufs[1..])
  {
    hide CacheInv, InsertOne, Outside;
    InsertOneLemma(c, id, k, bufs[0], inc);
    var d := InsertOne(c, id, k, bufs[0], inc);
    forall x | 0 <= x < |bufs[1..]| ensures bufs[1..][x].Buf? && Outside(d, bufs[1..][x].addr) {
      InsertOneOutside(c, id, k, bufs[0], inc, bufs[x + 1].addr);
    }
  }

  /** The cache after the buffers went into the slots from `k` on. */
  ghost function InsertRun(c: Cache, id: PieceId, k: nat, bufs: seq<Buf>, inc: bool): Cache
    requires CanInsertRun(c, id, k, bufs)
    decreases |bufs|
  {
    if bufs == [] then c else
      InsertRunNext(c, id, k, bufs, inc);
      InsertRun(InsertOne(c, id, k, bufs[0], inc), id, k + 1, bufs[1..], inc)
  }

  /** The read steps insert the same way. */
  lemma {:induction false} InsertAllIs(s: State, i: nat, k: nat, bufs: seq<Buf>)
    requires R.CanInsertAll(s, i, k, bufs)
    ensures CanInsertRun(s.c, s.fl[i].id, k, bufs)
    ensures R.InsertAll(s, i, k, bufs).c == InsertRun(s.c, s.fl[i].id, k, bufs, true)
    decreases |bufs|
  {
    hide CacheInv, InsertOne, Outside;
    if bufs != [] {
      R.InsertHeldNext(s, i, k, bufs);
      InsertAllIs(R.InsertHeld(s, i, k, bufs[0]), i, k + 1, bufs[1..]);
    }
  }

  /** insert_blocks, one block: a buffer that is there already stays. */
  method InsertBlock(cache: BlockCache, id: PieceId, k: nat, buf: Buf, inc: bool)
    requires H.CanInsert(cache.Abs(), id, k, buf)
    modifies cache
    ensures cache.Valid() && cache.Abs() == InsertOne(old(cache.Abs()), id, k, buf, inc)
  {
    hide CacheInv, Outside, Fill, EditBlocks;
    ghost var c := cache.Abs();
    InsertOneLemma(c, id, k, buf, inc);
    if cache.pieces[id].blocks[k].buf.Buf? {
      if inc { var _ := cache.IncBlockRefcount(id, k); }
      cache.pool := cache.pool - {buf.addr};
    } else {
      SlotEmpty(c, id, k);
      FillKeeps(c, id, k, buf, false);
      FillCounters(c, id, k, buf, false);
      var pe := cache.pieces[id];
      cache.pieces := cache.pieces[id := pe.(blocks := pe.blocks[k := Block(buf, 0, false, false)], numBlocks := pe.numBlocks + 1)];
      cache.readCacheSize := cache.readCacheSize + 1;
      if inc { var _ := cache.IncBlockRefcount(id, k); }
    }
  }

  /** insert_blocks: the piece counts as used, then each buffer fills its slot. */
  method InsertBlocks(cache: BlockCache, id: PieceId, block: nat, iov: seq<Buf>, requester: nat, volatileRead: bool, inc: bool, now: int)
    requires cache.Valid() && id in cache.pieces && now >= cache.clock && block + |iov| <= |cache.pieces[id].blocks|
    requires forall x :: 0 <= x < |iov| ==> iov[x].Buf? && Outside(cache.Abs(), iov[x].addr)
    requires forall x, y :: 0 <= x < y < |iov| ==> iov[x].addr != iov[y].addr
    modifies cache
    ensures |old(cache.lru)| == NUM_LRUS && 0 <= old(cache.pieces)[id].cacheState < NUM_LRUS
    ensures var h := CacheOps.CacheHit(old(cache.Abs()), id, requester, volatileRead, now);
      cache.Valid() && CanInsertRun(h, id, block, iov) && cache.Abs() == InsertRun(h, id, block, iov, inc)
  {
    hide CacheInv, Outside, CacheOps.CacheHit, InsertOne, CanInsertRun, InsertRun;
    ghost var c := cache.Abs();
    PieceFacts(c, id);
    HitInsertable(c, id, block, iov, requester, volatileRead, now);
    cache.CacheHit(id, requester, volatileRead, now);
    ghost var h := cache.Abs();
    var i := 0;
    assert iov[0..] == iov;
    while i < |iov|
      invariant 0 <= i <= |iov| && cache.Valid() && CanInsertRun(h, id, block, iov)
      invariant CanInsertRun(cache.Abs(), id, block + i, iov[i..])
      invariant InsertRun(cache.Abs(), id, block + i, iov[i..], inc) == InsertRun(h, id, block, iov, inc)
    {
      InsertRunStep(cache.Abs(), id, block + i, iov[i..], inc);
      assert iov[i..][1..] == iov[i + 1..];
      InsertBlock(cache, id, block + i, iov[i], inc);
      i := i + 1;
    }
    assert iov[i..] == [];
    InsertRunDone(cache.Abs(), id, block + i, inc);
  }

  lemma HitInsertable(c: Cache, id: PieceId, block: nat, iov: seq<Buf>, requester: nat, volatileRead: bool, now: int)
    requires CacheInv(c) && id in c.pieces && now >= c.clock && block + |iov| <= |c.pieces[id].blocks|
    requires |c.lru| == NUM_LRUS && 0 <= c.pieces[id].cacheState < NUM_LRUS
    requires forall x :: 0 <= x < |iov| ==> iov[x].Buf? && Outside(c, iov[x].addr)
    requires forall x, y :: 0 <= x < y < |iov| ==> iov[x].addr != iov[y].addr
    ensures CanInsertRun(CacheHit(c, id, requester, volatileRead, now), id, block, iov)
  {
    hide CacheInv, CacheHit, Addrs;
    CacheHitKeeps(c, id, requester, volatileRead, now);
    CacheHitEffect(c, id, requester, volatileRead, now);
    S.HitBlockSize(c, id, requester, volatileRead, now);
  }

  lemma InsertRunStep(c: Cache, id: PieceId, k: nat, bufs: seq<Buf>, inc: bool)
    requires CanInsertRun(c, id, k, bufs) && bufs != []
    ensures H.CanInsert(c, id, k, bufs[0]) && CanInsertRun(InsertOne(c, id, k, bufs[0], inc), id, k + 1, bufs[1..])
    ensures InsertRun(c, id, k, bufs, inc) == InsertRun(InsertOne(c, id, k, bufs[0], inc), id, k + 1, bufs[1..], inc)
  {
    hide CacheInv, InsertOne, Outside;
    InsertRunNext(c, id, k, bufs, inc);
  }

  lemma InsertRunDone(c: Cache, id: PieceId, k: nat, inc: bool)
    requires CanInsertRun(c, id, k, [])
    ensures InsertRun(c, id, k, [], inc) == c
  {}

  // ------------------------------------------------------ copy_from_piece, try_read

  lemma IncDec(p: Piece, k: nat)
    requires k < |p.blocks|
    ensures var q := WithBlock(p, k, Edited(IncRef, p.blocks[k])); WithBlock(q, k, Edited(DecRef, q.blocks[k])) == p
  {
    assert p.blocks[k := Edited(IncRef, p.blocks[k])][k := p.blocks[k]] == p.blocks;
  }

  /** A reference taken and given back leaves no trace. */
  lemma IncDecCache(c: Cache, id: PieceId, k: nat)
    requires CacheInv(c) && id in c.pieces && k < |c.pieces[id].blocks| && c.pieces[id].blocks[k].buf.Buf?
    ensures Editable(c.pieces[id], [k], IncRef)
    ensures var d := EditBlocks(c, id, [k], IncRef);
      && CacheInv(d) && id in d.pieces && |d.pieces[id].blocks| == |c.pieces[id].blocks|
      && CanEdit(DecRef, d.pieces[id].blocks[k]) && Editable(d.pieces[id], [k], DecRef) && EditBlocks(d, id, [k], DecRef) == c
      && forall x :: 0 <= x < |c.pieces[id].blocks| && x != k ==> d.pieces[id].blocks[x] == c.pieces[id].blocks[x]
  {
    hide CacheInv, Put, Editable, EditAll, Tally, EditBlocks, WithBlock;
    var p := c.pieces[id];
    EditOne(c, id, k, IncRef);
    var d := EditBlocks(c, id, [k], IncRef);
    WithBlockAt(p, k, Edited(IncRef, p.blocks[k]));
    EditOne(d, id, k, DecRef);
    IncDec(p, k);
    assert d.pieces[id := p] == c.pieces;
  }

  lemma WithBlockAt(p: Piece, k: nat, b: Block)
    requires k < |p.blocks|
    ensures WithBlock(p, k, b).blocks == p.blocks[k := b]
  {}

  /** References to two blocks, taken and given back in the same order. */
  lemma IncDecTwo(c: Cache, id: PieceId, a: nat, b: nat)
    requires CacheInv(c) && id in c.pieces && a < |c.pieces[id].blocks| && b < |c.pieces[id].blocks| && a != b
    requires c.pieces[id].blocks[a].buf.Buf? && c.pieces[id].blocks[b].buf.Buf?
    ensures Editable(c.pieces[id], [a], IncRef)
    ensures var d := EditBlocks(c, id, [a], IncRef);
      && CacheInv(d) && id in d.pieces && |d.pieces[id].blocks| == |c.pieces[id].blocks| && Editable(d.pieces[id], [b], IncRef)
      && d.pieces[id].blocks[b] == c.pieces[id].blocks[b]
      && var e := EditBlocks(d, id, [b], IncRef);
      && CacheInv(e) && id in e.pieces && |e.pieces[id].blocks| == |c.pieces[id].blocks| && CanEdit(DecRef, e.pieces[id].blocks[a])
      && Editable(e.pieces[id], [a], DecRef)
      && var f := EditBlocks(e, id, [a], DecRef);
      && id in f.pieces && |f.pieces[id].blocks| == |c.pieces[id].blocks| && CanEdit(DecRef, f.pieces[id].blocks[b])
      && Editable(f.pieces[id], [b], DecRef) && EditBlocks(f, id, [b], DecRef) == c
  {
    hide CacheInv, Put, Editable, EditAll, Tally, EditBlocks, WithBlock;
    var p := c.pieces[id];
    IncDecCache(c, id, a);
    IncDecCache(c, id, b);
    var d := EditBlocks(c, id, [a], IncRef);
    EditOne(c, id, a, IncRef);
    EditOne(c, id, b, IncRef);
    EditOne(d, id, b, IncRef);
    var e := EditBlocks(d, id, [b], IncRef);
    WithBlockAt(p, a, Edited(IncRef, p.blocks[a]));
    WithBlockAt(d.pieces[id], b, Edited(IncRef, d.pieces[id].blocks[b]));
    EditOne(e, id, a, DecRef);
    var f := EditBlocks(e, id, [a], DecRef);
    TwoBlocks(p, a, b);
    assert f.pieces == c.pieces[id := f.pieces[id]];
    assert f == EditBlocks(c, id, [b], IncRef);
  }

  lemma TwoBlocks(p: Piece, a: nat, b: nat)
    requires a < |p.blocks| && b < |p.blocks| && a != b
    ensures var q := WithBlock(p, a, Edited(IncRef, p.blocks[a]));
      var r := WithBlock(q, b, Edited(IncRef, q.blocks[b]));
      WithBlock(r, a, Edited(DecRef, r.blocks[a])) == WithBlock(p, b, Edited(IncRef, p.blocks[b]))
  {
    var x, y := Edited(IncRef, p.blocks[a]), Edited(IncRef, p.blocks[b]);
    assert p.blocks[a := x][b := y][a := p.blocks[a]] == p.blocks[b := y];
  }

  /** copy_from_piece, where a buffer for the copy can be had. */
  method CopyFromPiece(cache: BlockCache, j: ReadJob) returns (r: R.Outcome)
    requires cache.Valid() && cache.blockSize > 0 && j.piece in cache.pieces
    requires JobFits(j, j.piece, |cache.pieces[j.piece].blocks|, cache.blockSize)
    modifies cache
    ensures cache.Valid() && (cache.Abs(), r) == R.CopyFromPiece(old(cache.Abs()), j)
    ensures R.Serves(old(cache.Abs()), cache.Abs(), j, r, cache.blockSize)
    ensures r.Copied? && !FreeNow(old(cache.pieces[j.piece])) ==> cache.Abs() == old(cache.Abs())
  {
    hide R.Serves;
    hide CacheInv, PieceOk, Put, Editable, EditAll, EditBlocks, MaybeFree, JobFits, Frees, FirstBlock, BlocksToRead, FreeNow;
    ghost var c := cache.Abs();
    var id := j.piece;
    R.FirstInPiece(j, |cache.pieces[id].blocks|, cache.blockSize);
    R.AlignedOne(j, cache.blockSize);
    var block := FirstBlock(j, cache.blockSize);
    var blocksToRead := BlocksToRead(j, cache.blockSize);
    R.CopyServes(c, j);
    if c.pieces[id].blocks[block].buf.Buf? {
      IncDecCache(c, id, block);
      if blocksToRead == 2 && c.pieces[id].blocks[block + 1].buf.Buf? { IncDecTwo(c, id, block, block + 1); }
    }
    var locked := cache.IncBlockRefcount(id, block);
    if !locked { return R.Miss; }
    if blocksToRead == 1 && !j.forceCopy { return R.Referenced; }
    if blocksToRead == 2 {
      var both := cache.IncBlockRefcount(id, block + 1);
      if !both {
        cache.DecBlockRefcount(id, block);
        var _ := cache.MaybeFreePiece(id);
        return R.Miss;
      }
    }
    cache.DecBlockRefcount(id, block);
    if blocksToRead == 2 { cache.DecBlockRefcount(id, block + 1); }
    var _ := cache.MaybeFreePiece(id);
    return R.Copied;
  }

  method TryRead(cache: BlockCache, j: ReadJob, now: int) returns (r: R.Outcome)
    requires R.CanTry(cache.Abs(), j, now)
    modifies cache
    ensures cache.Valid() && (cache.Abs(), r) == R.TryRead(old(cache.Abs()), j, now)
    ensures if j.piece in old(cache.pieces) then R.Serves(old(cache.Abs()), cache.Abs(), j, r, cache.blockSize)
            else r.Miss? && cache.Abs() == old(cache.Abs())
  {
    hide CacheInv, CacheOps.CacheHit, R.CopyFromPiece, R.Serves, JobFits;
    ghost var c := cache.Abs();
    R.TryServes(c, j, now);
    if j.piece !in cache.pieces { return R.Miss; }
    CacheHitEffect(c, j.piece, j.requester, j.volatileRead, now);
    S.HitBlockSize(c, j.piece, j.requester, j.volatileRead, now);
    cache.CacheHit(j.piece, j.requester, j.volatileRead, now);
    r := CopyFromPiece(cache, j);
  }

  /** Gives back a block that was handed out by reference. */
  method ReclaimBlock(cache: BlockCache, id: PieceId, block: nat)
    requires cache.Valid() && id in cache.pieces && Editable(cache.pieces[id], [block], DecRef)
    modifies cache
    ensures var d := EditBlocks(old(cache.Abs()), id, [block], DecRef);
      cache.Valid() && CacheInv(d) && id in d.pieces && cache.Abs() == MaybeFree(d, id)
  {
    hide CacheInv, Put, EditAll, MaybeFree, Frees, PieceOk;
    assert [block][0] == block;
    EditOne(cache.Abs(), id, block, DecRef);
    cache.DecBlockRefcount(id, block);
    var _ := cache.MaybeFreePiece(id);
  }

  // --------------------------------------------------- maybe_issue_queued_read_jobs

  ghost function WithQueue(c: Cache, id: PieceId, jobs: seq<ReadJob>): Cache
    requires id in c.pieces
  {
    SetPiece(c, id, c.pieces[id].(readJobs := jobs))
  }

  lemma SetTwice(ps: map<PieceId, Piece>, id: PieceId, p: Piece, q: Piece)
    ensures ps[id := p][id := q] == ps[id := q]
  {}

  lemma MoveQueue(c: Cache, id: PieceId, jobs: seq<ReadJob>, state: int, now: int)
    requires |c.lru| == NUM_LRUS && id in c.pieces && 0 <= c.pieces[id].cacheState < NUM_LRUS && 0 <= state < NUM_LRUS
    ensures MoveTo(WithQueue(c, id, jobs), id, state, now) == WithQueue(MoveTo(c, id, state, now), id, jobs)
  {
    hide Relink;
    var p := c.pieces[id];
    var r := p.(readJobs := jobs, cacheState := state, expire := now);
    SetTwice(c.pieces, id, p.(readJobs := jobs), r);
    SetTwice(c.pieces, id, p.(cacheState := state, expire := now), r);
  }

  lemma RecordQueue(c: Cache, id: PieceId, jobs: seq<ReadJob>, requester: nat, op: CacheOp)
    requires id in c.pieces
    ensures var p := c.pieces[id]; var d := WithQueue(c, id, jobs);
      && id in d.pieces && d.pieces[id] == p.(readJobs := jobs)
      && SetPiece(d, id, d.pieces[id].(lastRequester := requester)) == WithQueue(SetPiece(c, id, p.(lastRequester := requester)), id, jobs)
      && d.(lastOp := op) == WithQueue(c.(lastOp := op), id, jobs)
  {
    var p := c.pieces[id];
    var r := p.(readJobs := jobs, lastRequester := requester);
    SetTwice(c.pieces, id, p.(readJobs := jobs), r);
    SetTwice(c.pieces, id, p.(lastRequester := requester), r);
  }

  /** The cache between recording who asked and moving the piece. */
  function Recorded(c: Cache, id: PieceId, requester: nat, volatileRead: bool): Cache
    requires id in c.pieces
  {
    if HitRecords(c.pieces[id], requester, volatileRead) then SetPiece(c, id, c.pieces[id].(lastRequester := requester)) else c
  }

  lemma HitIs(c: Cache, id: PieceId, requester: nat, volatileRead: bool, now: int)
    requires |c.lru| == NUM_LRUS && id in c.pieces && 0 <= c.pieces[id].cacheState < NUM_LRUS
    ensures var d := Recorded(c, id, requester, volatileRead); var t := HitTarget(c.pieces[id], requester, volatileRead);
      var op := HitOp(c.pieces[id].cacheState, c.lastOp);
      && id in d.pieces && d.lru == c.lru && d.pieces[id].cacheState == c.pieces[id].cacheState
      && (t.Some? ==> 0 <= t.value < NUM_LRUS)
      && CacheHit(c, id, requester, volatileRead, now) == if t.None? then d else MoveTo(d.(lastOp := op), id, t.value, now)
  {
    hide MoveTo;
  }

  lemma RecordedQueue(c: Cache, id: PieceId, jobs: seq<ReadJob>, requester: nat, volatileRead: bool, op: CacheOp)
    requires id in c.pieces
    ensures id in WithQueue(c, id, jobs).pieces && id in Recorded(c, id, requester, volatileRead).pieces
    ensures Recorded(WithQueue(c, id, jobs), id, requester, volatileRead) == WithQueue(Recorded(c, id, requester, volatileRead), id, jobs)
    ensures Recorded(WithQueue(c, id, jobs), id, requester, volatileRead).(lastOp := op) ==
            WithQueue(Recorded(c, id, requester, volatileRead).(lastOp := op), id, jobs)
  {
    hide WithQueue, SetPiece;
    QueueIs(c, id, jobs);
    RecordQueue(c, id, jobs, requester, op);
    var e := Recorded(c, id, requester, volatileRead);
    SetHas(c, id, c.pieces[id].(lastRequester := requester));
    RecordQueue(e, id, jobs, requester, op);
  }

  lemma SetHas(c: Cache, id: PieceId, p: Piece)
    ensures id in SetPiece(c, id, p).pieces
  {}

  lemma HitQueue(c: Cache, id: PieceId, jobs: seq<ReadJob>, requester: nat, volatileRead: bool, now: int)
    requires |c.lru| == NUM_LRUS && id in c.pieces && 0 <= c.pieces[id].cacheState < NUM_LRUS
    ensures WithQueue(c, id, jobs).lru == c.lru && id in WithQueue(c, id, jobs).pieces
            && WithQueue(c, id, jobs).pieces[id].cacheState == c.pieces[id].cacheState && id in CacheHit(c, id, requester, volatileRead, now).pieces
    ensures CacheHit(WithQueue(c, id, jobs), id, requester, volatileRead, now) ==
            WithQueue(CacheHit(c, id, requester, volatileRead, now), id, jobs)
  {
    hide MoveTo, WithQueue, Recorded, CacheHit, HitRecords, HitOp;
    QueueIs(c, id, jobs);
    QueueOp(c, id, jobs);
    CacheHitEffect(c, id, requester, volatileRead, now);
    HitIs(c, id, requester, volatileRead, now);
    HitIs(WithQueue(c, id, jobs), id, requester, volatileRead, now);
    var op := HitOp(c.pieces[id].cacheState, c.lastOp);
    RecordedQueue(c, id, jobs, requester, volatileRead, op);
    var t := HitTarget(c.pieces[id], requester, volatileRead);
    if t.Some? { MoveQueue(Recorded(c, id, requester, volatileRead).(lastOp := op), id, jobs, t.value, now); }
  }

  lemma QueueOp(c: Cache, id: PieceId, jobs: seq<ReadJob>)
    requires id in c.pieces
    ensures WithQueue(c, id, jobs).lastOp == c.lastOp
  {}

  lemma IncQueue(c: Cache, id: PieceId, jobs: seq<ReadJob>, k: nat)
    requires CacheInv(c) && id in c.pieces && CacheInv(WithQueue(c, id, jobs)) && k < |c.pieces[id].blocks| && c.pieces[id].blocks[k].buf.Buf?
    ensures Editable(c.pieces[id], [k], IncRef) && Editable(WithQueue(c, id, jobs).pieces[id], [k], IncRef)
    ensures EditBlocks(WithQueue(c, id, jobs), id, [k], IncRef) == WithQueue(EditBlocks(c, id, [k], IncRef), id, jobs)
  {
    hide CacheInv, EditBlocks, Editable;
    EditOne(c, id, k, IncRef);
    EditOne(WithQueue(c, id, jobs), id, k, IncRef);
    var a, b := EditBlocks(WithQueue(c, id, jobs), id, [k], IncRef), WithQueue(EditBlocks(c, id, [k], IncRef), id, jobs);
    assert a.pieces[id] == b.pieces[id];
    assert a.pieces == b.pieces;
  }

  lemma ReadNotFreed(c: Cache, id: PieceId)
    requires CacheInv(c) && id in c.pieces && c.pieces[id].outstandingRead
    ensures MaybeFree(c, id) == c
  {
    hide CacheInv;
  }

  lemma QueueOk(c: Cache, id: PieceId, jobs: seq<ReadJob>)
    requires CacheInv(c) && id in c.pieces && c.pieces[id].outstandingRead
    ensures CacheInv(WithQueue(c, id, jobs))
  {
    hide CacheInv;
    NotGhost(c, id);
    R.QueueKeepsCache(c, id, WithQueue(c, id, jobs).pieces[id]);
  }

  /** While a piece is being read, try_read does not look at its queue. */
  lemma TryQueue(c: Cache, j: ReadJob, jobs: seq<ReadJob>, now: int)
    requires R.CanTry(c, j, now) && j.piece in c.pieces && c.pieces[j.piece].outstandingRead
    ensures R.CanTry(WithQueue(c, j.piece, jobs), j, now) && j.piece in R.TryRead(c, j, now).0.pieces
    ensures R.TryRead(WithQueue(c, j.piece, jobs), j, now) ==
            (WithQueue(R.TryRead(c, j, now).0, j.piece, jobs), R.TryRead(c, j, now).1)
  {
    hide CacheInv, CacheHit, JobFits, EditBlocks, Editable, MaybeFree, WithQueue, FirstBlock, BlocksToRead;
    var id := j.piece;
    var d := WithQueue(c, id, jobs);
    assert d.pieces[id] == c.pieces[id].(readJobs := jobs) && id in d.pieces && d.blockSize == c.blockSize && d.lru == c.lru && d.clock == c.clock by {
      QueueIs(c, id, jobs);
    }
    QueueOk(c, id, jobs);
    HitQueue(c, id, jobs, j.requester, j.volatileRead, now);
    CacheHitKeeps(c, id, j.requester, j.volatileRead, now);
    CacheHitEffect(c, id, j.requester, j.volatileRead, now);
    S.HitBlockSize(c, id, j.requester, j.volatileRead, now);
    CacheHitKeeps(d, id, j.requester, j.volatileRead, now);
    var h := CacheHit(c, id, j.requester, j.volatileRead, now);
    QueueIs(h, id, jobs);
    R.FirstInPiece(j, |h.pieces[id].blocks|, h.blockSize);
    R.AlignedOne(j, h.blockSize);
    ReadNotFreed(h, id);
    ReadNotFreed(WithQueue(h, id, jobs), id);
    if h.pieces[id].blocks[FirstBlock(j, h.blockSize)].buf.Buf? {
      IncQueue(h, id, jobs, FirstBlock(j, h.blockSize));
      EditOne(h, id, FirstBlock(j, h.blockSize), IncRef);
    }
  }

  lemma QueueIs(c: Cache, id: PieceId, jobs: seq<ReadJob>)
    requires id in c.pieces
    ensures var d := WithQueue(c, id, jobs);
      && id in d.pieces && d.pieces[id] == c.pieces[id].(readJobs := jobs) && d.blockSize == c.blockSize && d.lru == c.lru
      && d.clock == c.clock && d.pieces == c.pieces[id := d.pieces[id]]
  {}

  /** One round of the loop: `stalled` are the jobs still to be tried, `again` those
      that went back into the queue. */
  ghost predicate Round(u: State, i: nat, stalled: seq<ReadJob>, again: seq<ReadJob>, next: Option<ReadJob>, now: int) {
    && Inv(u) && i < |u.fl| && u.fl[i].kind == Serving(next) && u.fl[i].id in u.c.pieces && now >= u.c.clock
    && u.c.pieces[u.fl[i].id].readJobs == stalled + again && (next.None? ==> again == [])
  }

  /** What the next round does to the queue and to who is next. */
  ghost predicate RoundTo(u: State, v: State, i: nat, stalled: seq<ReadJob>, again: seq<ReadJob>, next: Option<ReadJob>, d: Cache, hit: bool,
                          now: int)
  {
    && stalled != [] && i < |u.fl| && u.fl[i].id in v.c.pieces
    && var id, j := u.fl[i].id, stalled[0];
       var after := if hit || next.None? then again else again + [j];
       var nextAfter := if !hit && next.None? then Some(j) else next;
       && Round(v, i, stalled[1..], after, nextAfter, now) && v.fl[i].id == id
       && v.completed == (if hit then u.completed + multiset{j} else u.completed)
       && id in d.pieces && WithQueue(d, id, after) == WithQueue(v.c, id, after)
       && d.pieces[id].readJobs == again
  }

  lemma QueueTwice(c: Cache, id: PieceId, a: seq<ReadJob>, b: seq<ReadJob>)
    requires id in c.pieces
    ensures id in WithQueue(c, id, a).pieces && WithQueue(WithQueue(c, id, a), id, b) == WithQueue(c, id, b)
  {
    assert WithQueue(WithQueue(c, id, a), id, b).pieces == WithQueue(c, id, b).pieces;
  }

  /** The step system's side of a round, after the job was tried. */
  lemma SortedIs(w: State, i: nat, hit: bool, stalled: seq<ReadJob>, again: seq<ReadJob>, next: Option<ReadJob>)
    requires i < |w.fl| && w.fl[i].kind == Serving(next) && w.fl[i].id in w.c.pieces
    requires w.c.pieces[w.fl[i].id].readJobs == stalled + again && stalled != [] && (next.None? ==> again == [])
    ensures var v := R.Sorted(w, i, hit); var j := stalled[0]; var id := w.fl[i].id;
      var after := if hit || next.None? then again else again + [j];
      && v.c == WithQueue(w.c, id, stalled[1..] + after) && i < |v.fl| && v.fl[i].id == id
      && v.fl[i].kind == Serving(if !hit && next.None? then Some(j) else next)
      && v.completed == (if hit then w.completed + multiset{j} else w.completed)
  {
    assert (stalled + again)[0] == stalled[0] && (stalled + again)[1..] == stalled[1..] + again;
    assert stalled[1..] + again + [stalled[0]] == stalled[1..] + (again + [stalled[0]]);
  }

  lemma NextRound(u: State, i: nat, stalled: seq<ReadJob>, again: seq<ReadJob>, next: Option<ReadJob>, now: int)
    requires Round(u, i, stalled, again, next, now) && stalled != []
    ensures R.CanServe(u, i, now) && stalled[0].piece == u.fl[i].id && R.CanTry(WithQueue(u.c, u.fl[i].id, again), stalled[0], now)
    ensures var r := R.TryRead(WithQueue(u.c, u.fl[i].id, again), stalled[0], now);
      RoundTo(u, R.ServeOne(u, i, now), i, stalled, again, next, r.0, !r.1.Miss?, now)
    ensures R.ServeAll(u, i, |stalled|, now) == R.ServeAll(R.ServeOne(u, i, now), i, |stalled| - 1, now)
  {
    hide Inv, CacheInv, R.CanTry, R.TryRead, R.Tried, R.Sorted, JobFits, WithQueue;
    var id, j := u.fl[i].id, stalled[0];
    assert u.c.pieces[id].readJobs[0] == j;
    R.ServeEnabled(u, i, now);
    R.ServeOneKeeps(u, i, now);
    R.TriedHeld(u, j, now);
    TryQueue(u.c, j, again, now);
    TriedCache(u, j, now);
    var w := R.Tried(u, j, now);
    assert w.fl[i] == u.fl[i];
    var r := R.TryRead(u.c, j, now);
    SortedIs(w, i, !r.1.Miss?, stalled, again, next);
    var after := if !r.1.Miss? || next.None? then again else again + [j];
    QueueTwice(w.c, id, again, after);
    QueueTwice(w.c, id, stalled[1..] + after, after);
    QueueIs(w.c, id, again);
    QueueIs(w.c, id, stalled[1..] + after);
  }

  lemma TriedCache(s: State, j: ReadJob, now: int)
    requires R.CanTry(s.c, j, now)
    ensures R.Tried(s, j, now).c == R.TryRead(s.c, j, now).0
  {
    hide CacheInv, R.TryRead, JobFits;
  }

  /** The loop over the queued jobs of a piece. `s` is the state of the step system,
      and flight `i` the section this method is part of. */
  method ServeQueue(cache: BlockCache, id: PieceId, now: int, ghost s: State, ghost i: nat)
    returns (next: Option<ReadJob>, completed: seq<ReadJob>)
    requires Inv(s) && i < |s.fl| && s.fl[i].kind == Serving(None) && s.fl[i].id == id && id in s.c.pieces
    requires cache.Abs() == s.c && now >= s.c.clock
    modifies cache
    ensures var t := R.ServeAll(s, i, |s.c.pieces[id].readJobs|, now);
      cache.Abs() == t.c && i < |t.fl| && t.fl[i].kind == Serving(next) && t.completed == s.completed + multiset(completed)
  {
    hide Inv, CacheInv, R.CanTry, R.TryRead, R.ServeAll, R.ServeOne, R.CanServe;
    ghost var u := s;
    H.InInv(s);
    var pe := cache.pieces[id];
    var stalled, again: seq<ReadJob> := pe.readJobs, [];
    cache.pieces := cache.pieces[id := pe.(readJobs := [])];
    next, completed := None, [];
    assert stalled + [] == stalled;
    QueueIs(s.c, id, []);
    while |stalled| > 0
      invariant Round(u, i, stalled, again, next, now) && u.fl[i].id == id && id in u.c.pieces
      invariant cache.Abs() == WithQueue(u.c, id, again)
      invariant R.ServeAll(u, i, |stalled|, now) == R.ServeAll(s, i, |s.c.pieces[id].readJobs|, now)
      invariant u.completed == s.completed + multiset(completed)
      decreases |stalled|
    {
      NextRound(u, i, stalled, again, next, now);
      QueueIs(u.c, id, again);
      ghost var d := R.TryRead(cache.Abs(), stalled[0], now).0;
      var j := stalled[0];
      stalled := stalled[1..];
      u := R.ServeOne(u, i, now);
      var ret := TryRead(cache, j, now);
      assert cache.Abs() == d && WithQueue(d, id, again) == d by { QueueSame(d, id); }
      if !ret.Miss? {
        completed := completed + [j];
      } else if next.None? {
        next := Some(j);
      } else {
        var q := cache.pieces[id];
        again := again + [j];
        cache.pieces := cache.pieces[id := q.(readJobs := again)];
      }
    }
    ServeAllDone(u, i, now);
    assert again == stalled + again;
    assert WithQueue(u.c, id, again) == u.c by { QueueSame(u.c, id); }
  }

  lemma ServeAllDone(u: State, i: nat, now: int)
    requires Inv(u) && i < |u.fl| && u.fl[i].kind.Serving? && now >= u.c.clock && u.fl[i].id in u.c.pieces
    ensures R.ServeAll(u, i, 0, now) == u
  {
    hide Inv;
  }

  lemma QueueSame(c: Cache, id: PieceId)
    requires id in c.pieces
    ensures WithQueue(c, id, c.pieces[id].readJobs) == c
  {
    assert c.pieces[id := c.pieces[id]] == c.pieces;
  }
}
