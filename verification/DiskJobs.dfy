/** The locked sections of the read and hash jobs of disk_io_thread.cpp, over the block
    cache object: prep_read_job_impl, and both ends of do_hash and of do_read. */
module DiskJobs {
  import opened CacheModel
  import opened CacheSpec
  import opened BlockEdits
  import opened CacheOps
  import opened Eviction
  import opened BlockCaches
  import opened DiskProtocol
  import opened ProtocolFrames
  import opened FlushSteps
  import S = CacheSteps
  import H = HashSteps
  import R = ReadSteps
  import T = DiskThreads
  import C = CacheReads

  // ----------------------------------------------------------- prep_read_job_impl

  /** Where the job has gone: it is done, it is issued, or it waits for another read of
      its piece. */
  ghost predicate Prepared(s: State, t: State, j: ReadJob, code: int) {
    match code
    case 0 => t.completed == s.completed + multiset{j}
    case 1 => t.fl != [] && t.fl[|t.fl| - 1] == Flight(Reading(j), j.piece, [], []) && t.completed == s.completed
    case 2 => j.piece in t.c.pieces && j in t.c.pieces[j.piece].readJobs && t.completed == s.completed
    case _ => false
  }

  /** What prep_read_job_impl does with a job that was not in the cache. */
  ghost predicate Missed(s: State, t: State, d: Cache, j: ReadJob) {
    && j.piece in d.pieces
    && var p := d.pieces[j.piece];
       if p.outstandingRead
       then t.c == SetPiece(d, j.piece, p.(readJobs := p.readJobs + [j])) && Prepared(s, t, j, 2)
       else t.c == SetPiece(d, j.piece, p.(outstandingRead := true)) && Prepared(s, t, j, 1)
  }

  /** What it does with any job, given what came of trying to read it. */
  ghost predicate PrepDone(s: State, t: State, d: Cache, miss: bool, j: ReadJob, size: int, now: int) {
    && d.clock <= now
    && if miss
       then |d.lru| == NUM_LRUS && d.blockSize > 0 && (j.piece in d.pieces ==> 0 <= d.pieces[j.piece].cacheState < NUM_LRUS) && size > 0 &&
            Missed(s, t, AllocatePiece(d, j.piece, size, j.requester, READ_LRU1, now), j)
       else t.c == d && Prepared(s, t, j, 0)
  }

  lemma PrepParts(s: State, j: ReadJob, size: int, now: int)
    requires Inv(s) && R.CanPrep(s, j, size, now)
    ensures R.CanTry(s.c, j, now) && CacheInv(s.c)
    ensures PrepDone(s, R.Prep(s, j, size, now), R.TryRead(s.c, j, now).0, R.TryRead(s.c, j, now).1.Miss?, j, size, now)
  {
    hide Inv, CacheInv, JobFits, R.TryRead, R.Tried, AllocatePiece;
    H.InInv(s);
    R.PrepCanTry(s, j, size, now);
    R.TriedKeeps(s, j, now);
    R.TriedFacts(s, j, now);
    C.TriedCache(s, j, now);
    var u := R.Tried(s, j, now);
    if R.TryRead(s.c, j, now).1.Miss? {
      R.MissEnabled(u, j, size, now);
      var v := u.(c := AllocatePiece(u.c, j.piece, size, j.requester, READ_LRU1, now));
      assert R.Prep(s, j, size, now) == R.Enqueued(v, j);
      var p := v.c.pieces[j.piece];
      assert (p.readJobs + [j])[|p.readJobs|] == j;
    }
  }

  /** 0 if the job is done, 1 if it has to be issued, 2 if it waits. */
  method PrepRead(cache: BlockCache, j: ReadJob, size: int, now: int, ghost s: State) returns (code: int)
    requires Inv(s) && R.CanPrep(s, j, size, now) && cache.Abs() == s.c
    modifies cache
    ensures cache.Abs() == R.Prep(s, j, size, now).c && Prepared(s, R.Prep(s, j, size, now), j, code)
  {
    hide Inv, CacheInv, R.CanPrep, R.CanTry, R.TryRead, R.Tried, R.Prep, Prepared, AllocatePiece;
    PrepParts(s, j, size, now);
    var ret := C.TryRead(cache, j, now);
    if !ret.Miss? { return 0; }
    cache.AllocatePiece(j.piece, size, j.requester, READ_LRU1, now);
    var pe := cache.pieces[j.piece];
    if pe.outstandingRead {
      cache.pieces := cache.pieces[j.piece := pe.(readJobs := pe.readJobs + [j])];
      return 2;
    }
    cache.pieces := cache.pieces[j.piece := pe.(outstandingRead := true)];
    return 1;
  }

  // -------------------------------------------------- marks and blocks do not mix

  /** A piece with the marks of another. */
  function Dressed(p: Piece, q: Piece): Piece {
    p.(pieceRefcount := q.pieceRefcount, hash := q.hash, hashing := q.hashing, hashingDone := q.hashingDone,
       outstandingRead := q.outstandingRead)
  }

  lemma {:induction false} EditDressed(p: Piece, q: Piece, ks: seq<nat>, e: Edit)
    requires forall i :: 0 <= i < |ks| ==> ks[i] < |p.blocks|
    ensures EditAll(Dressed(p, q), ks, e) == Dressed(EditAll(p, ks, e), q)
  {
    if ks != [] { EditDressed(p, q, ks[..|ks| - 1], e); }
  }

  /** Setting marks before editing blocks is setting them afterwards. */
  lemma EditMarked(c: Cache, id: PieceId, q: Piece, ks: seq<nat>, e: Edit)
    requires id in c.pieces && q == Dressed(c.pieces[id], q) && Editable(c.pieces[id], ks, e)
    ensures id in SetPiece(c, id, q).pieces && Editable(SetPiece(c, id, q).pieces[id], ks, e)
    ensures id in EditBlocks(c, id, ks, e).pieces
    ensures EditBlocks(SetPiece(c, id, q), id, ks, e) ==
            SetPiece(EditBlocks(c, id, ks, e), id, Dressed(EditBlocks(c, id, ks, e).pieces[id], q))
  {
    hide EditAll, Tally, Addrs;
    EditDressed(c.pieces[id], q, ks, e);
    var r := EditAll(q, ks, e);
    assert c.pieces[id := q][id := r] == c.pieces[id := EditAll(c.pieces[id], ks, e)][id := r];
  }

  // ---------------------------------------------------------------------- do_hash

  /** `locked` are the cached blocks from `from` on that lie before `i`. */
  ghost predicate LockedUpTo(bs: seq<Block>, from: nat, locked: seq<nat>, i: nat) {
    from <= i <= |bs| && locked + H.CachedFrom(bs, i) == H.CachedFrom(bs, from)
  }

  lemma LockedNone(bs: seq<Block>, from: nat)
    requires from <= |bs|
    ensures LockedUpTo(bs, from, [], from)
  {
    hide H.CachedFrom;
    assert [] + H.CachedFrom(bs, from) == H.CachedFrom(bs, from);
  }

  lemma LockedNext(bs: seq<Block>, from: nat, locked: seq<nat>, i: nat)
    requires LockedUpTo(bs, from, locked, i) && i < |bs|
    ensures LockedUpTo(bs, from, if bs[i].buf.Buf? then locked + [i] else locked, i + 1)
  {
    var rest := H.CachedFrom(bs, i + 1);
    assert bs[i].buf.Buf? ==> locked + ([i] + rest) == (locked + [i]) + rest;
  }

  lemma LockedAll(bs: seq<Block>, from: nat, locked: seq<nat>)
    requires LockedUpTo(bs, from, locked, |bs|)
    ensures locked == H.CachedFrom(bs, from)
  {
    assert locked + [] == locked;
  }

  lemma LockEditable(p: Piece, from: nat, locked: seq<nat>, i: nat)
    requires LockedUpTo(p.blocks, from, locked, i)
    ensures Editable(p, locked, IncRef)
  {
    H.CachedEditable(p, from);
    var all := H.CachedFrom(p.blocks, from);
    assert forall x :: 0 <= x < |locked| ==> all[x] == locked[x];
  }

  /** The loop of do_hash that locks the cached blocks. */
  method LockCached(cache: BlockCache, id: PieceId, from: nat) returns (locked: seq<nat>)
    requires cache.Valid() && id in cache.pieces && from <= |cache.pieces[id].blocks|
    modifies cache
    ensures cache.Valid() && locked == H.CachedFrom(old(cache.pieces)[id].blocks, from)
    ensures Editable(old(cache.pieces)[id], locked, IncRef) && cache.Abs() == EditBlocks(old(cache.Abs()), id, locked, IncRef)
  {
    hide CacheInv, EditBlocks, Editable, H.CachedFrom, PieceOk, LockedUpTo;
    ghost var m := cache.Abs();
    ghost var p := cache.pieces[id];
    var n := |cache.pieces[id].blocks|;
    locked := [];
    EditNone(m, id, IncRef);
    LockedNone(p.blocks, from);
    for i := from to n
      invariant cache.Valid() && id in cache.pieces && LockedUpTo(p.blocks, from, locked, i)
      invariant Editable(p, locked, IncRef) && cache.Abs() == EditBlocks(m, id, locked, IncRef)
    {
      LockedNext(p.blocks, from, locked, i);
      T.SameSlot(m, id, locked, i);
      if cache.pieces[id].blocks[i].buf.Buf? {
        LockEditable(p, from, locked + [i], i + 1);
        T.IncStep(m, id, locked, i);
        var _ := cache.IncBlockRefcount(id, i);
        locked := locked + [i];
      }
    }
    LockedAll(p.blocks, from, locked);
  }

  /** do_hash up to where it drops the mutex: the piece is marked and pinned, gets a hash
      if it has none, and every cached block from the cursor on is locked. */
  method HashBegin(cache: BlockCache, id: PieceId, ghost s: State) returns (locked: seq<nat>)
    requires Inv(s) && H.CanHash(s, id) && cache.Abs() == s.c
    modifies cache
    ensures var t := H.HashStart(s, id);
      cache.Valid() && cache.Abs() == t.c && t.fl != [] && t.fl[|t.fl| - 1].blocks == locked
  {
    hide Inv, CacheInv, EditBlocks, Editable, H.CachedFrom, PieceOk, H.HashStart, Starts;
    var pe := cache.pieces[id];
    BeginMarked(s, id);
    var q := H.WithHash(pe).(hashing := true, pieceRefcount := pe.pieceRefcount + 1);
    cache.pieces := cache.pieces[id := q];
    locked := LockCached(cache, id, q.hash.value.offset / cache.blockSize);
    StartsFacts(s, id, q);
  }

  /** What do_hash locks once the piece carries the marks `q`. */
  ghost predicate Starts(s: State, id: PieceId, q: Piece)
    requires H.CanHash(s, id)
  {
    && q.hash.Some? && |q.blocks| == |s.c.pieces[id].blocks|
    && var from := q.hash.value.offset / s.c.blockSize;
      && 0 <= from <= |q.blocks|
      && var ks := H.CachedFrom(q.blocks, from); var t := H.HashStart(s, id);
        && Editable(q, ks, IncRef) && t.c == EditBlocks(SetPiece(s.c, id, q), id, ks, IncRef)
        && t.fl != [] && t.fl[|t.fl| - 1].blocks == ks
  }

  lemma StartsFacts(s: State, id: PieceId, q: Piece)
    requires H.CanHash(s, id) && Starts(s, id, q)
    ensures q.hash.Some? && 0 <= q.hash.value.offset / s.c.blockSize <= |q.blocks|
    ensures var ks := H.CachedFrom(q.blocks, q.hash.value.offset / s.c.blockSize); var t := H.HashStart(s, id);
      Editable(q, ks, IncRef) && t.c == EditBlocks(SetPiece(s.c, id, q), id, ks, IncRef) && t.fl != [] && t.fl[|t.fl| - 1].blocks == ks
  {
    hide EditBlocks, Editable, H.CachedFrom, H.HashStart;
  }

  lemma BeginMarked(s: State, id: PieceId)
    requires Inv(s) && H.CanHash(s, id)
    ensures CacheInv(s.c)
    ensures var p := s.c.pieces[id]; var q := H.WithHash(p).(hashing := true, pieceRefcount := p.pieceRefcount + 1);
      && CacheInv(SetPiece(s.c, id, q)) && Starts(s, id, q)
      && 0 <= q.hash.value.offset / s.c.blockSize <= |q.blocks|
  {
    hide Inv, CacheInv, EditBlocks, PieceOk, H.CachedFrom, Editable;
    H.InvFacts(s, id);
    PieceFacts(s.c, id);
    var p := s.c.pieces[id];
    var q := H.WithHash(p).(hashing := true, pieceRefcount := p.pieceRefcount + 1);
    var from := q.hash.value.offset / s.c.blockSize;
    SetPieceKeeps(s.c, id, q);
    H.CachedEditable(q, from);
    var ks := H.CachedFrom(q.blocks, from);
    var w := H.WithHash(p);
    H.CachedEditable(w, from);
    var c := SetPiece(s.c, id, w);
    C.SetTwice(s.c.pieces, id, w, q);
    EditMarked(c, id, q, ks, IncRef);
    EditedMarks(c, id, ks, IncRef);
  }

  lemma EditedMarks(c: Cache, id: PieceId, ks: seq<nat>, e: Edit)
    requires id in c.pieces && Editable(c.pieces[id], ks, e)
    ensures id in EditBlocks(c, id, ks, e).pieces
    ensures EditBlocks(c, id, ks, e).pieces[id] == Dressed(EditBlocks(c, id, ks, e).pieces[id], c.pieces[id])
  {
    hide Tally, Addrs, EditAll, Editable;
    EditAllLemma(c.pieces[id], ks, e);
  }

  /** What a hasher leaves behind when it lets go at `offset`, one part after the other. */
  lemma UnlockParts(s: State, i: nat, offset: int)
    requires Inv(s) && H.CanUnlock(s, i) && s.c.blockSize > 0 && s.fl[i].id in s.c.pieces
    requires offset == Off(s.fl[i].kind.at, s.c.blockSize, s.c.pieces[s.fl[i].id].size)
    ensures var f := s.fl[i]; var p := s.c.pieces[f.id]; var q := p.(hash := Some(p.hash.value.(offset := offset)));
      && CacheInv(SetPiece(s.c, f.id, q)) && Editable(q, f.blocks, DecRef)
      && var d := EditBlocks(SetPiece(s.c, f.id, q), f.id, f.blocks, DecRef);
        && f.id in d.pieces
        && H.Unlocked(s.c, f) == SetPiece(d, f.id, d.pieces[f.id].(hashing := false, pieceRefcount := d.pieces[f.id].pieceRefcount - 1))
    ensures CacheInv(H.Unlocked(s.c, s.fl[i]))
  {
    hide Inv, CacheInv, PieceOk, Editable, EditBlocks, Off;
    var f := s.fl[i];
    var p := s.c.pieces[f.id];
    H.InvFacts(s, f.id);
    PieceFacts(s.c, f.id);
    H.HasherEnabled(s, i);
    NotGhost(s.c, f.id);
    H.OffRange(f.kind.at, s.c.blockSize, p.size);
    var q := p.(hash := Some(p.hash.value.(offset := offset)));
    SetPieceKeeps(s.c, f.id, q);
    EditMarked(s.c, f.id, q, f.blocks, DecRef);
    EditedMarks(s.c, f.id, f.blocks, DecRef);
    UnlockedSize(s.c, f);
    var e := EditBlocks(s.c, f.id, f.blocks, DecRef);
    var x := Dressed(e.pieces[f.id], q);
    C.SetTwice(e.pieces, f.id, x, x.(hashing := false, pieceRefcount := x.pieceRefcount - 1));
    H.UnlockedKeeps(s, i);
  }

  lemma UnlockedSize(c: Cache, f: Flight)
    requires f.id in c.pieces && Editable(c.pieces[f.id], f.blocks, DecRef)
    ensures var d := EditBlocks(c, f.id, f.blocks, DecRef); f.id in d.pieces && d.pieces[f.id].size == c.pieces[f.id].size
  {
    hide Tally, Addrs, EditAll, Editable;
    EditAllLemma(c.pieces[f.id], f.blocks, DecRef);
  }

  /** The hasher stores how far it came, releases its blocks and unpins the piece. */
  method Unlock(cache: BlockCache, id: PieceId, blocks: seq<nat>, offset: int, ghost s: State, ghost i: nat)
    requires Inv(s) && H.CanUnlock(s, i) && cache.Abs() == s.c && id == s.fl[i].id && blocks == s.fl[i].blocks
    requires s.c.blockSize > 0 && offset == Off(s.fl[i].kind.at, s.c.blockSize, s.c.pieces[id].size)
    modifies cache
    ensures cache.Valid() && cache.Abs() == H.Unlocked(s.c, s.fl[i])
  {
    hide Inv, CacheInv, PieceOk, Editable, EditBlocks, H.Unlocked, Off;
    UnlockParts(s, i, offset);
    var pe := cache.pieces[id];
    cache.pieces := cache.pieces[id := pe.(hash := Some(pe.hash.value.(offset := offset)))];
    T.DecBlocks(cache, id, blocks);
    pe := cache.pieces[id];
    cache.pieces := cache.pieces[id := pe.(hashing := false, pieceRefcount := pe.pieceRefcount - 1)];
  }

  /** do_hash from where it takes the mutex again; `read` is false if a read failed. The
      digest is that of the hash it takes off the piece. */
  method HashEnd(cache: BlockCache, id: PieceId, blocks: seq<nat>, offset: int, read: bool, now: int, ghost s: State, ghost i: nat)
    returns (digest: Option<seq<Fed>>)
    requires Inv(s) && cache.Abs() == s.c && (if read then H.CanFinishHash(s, i, now) else H.CanFailHash(s, i))
    requires id == s.fl[i].id && blocks == s.fl[i].blocks && s.c.blockSize > 0
    requires offset == Off(s.fl[i].kind.at, s.c.blockSize, s.c.pieces[id].size)
    modifies cache
    ensures cache.Abs() == if read then H.FinishHash(s, i, now).c else H.FailHash(s, i, true).c
    ensures digest == if read then Some(s.c.pieces[id].hash.value.fed) else None
  {
    hide Inv, CacheInv, PieceOk, Editable, EditBlocks, H.Unlocked, Off, UpdateState, MaybeFree, H.CanUnlock;
    H.HashLandedFacts(s, i);
    Unlock(cache, id, blocks, offset, s, i);
    ghost var t := H.HashLanded(s, i);
    digest := None;
    if read {
      H.WithoutHashKeeps(t.c, id);
      var pe := cache.pieces[id];
      digest := Some(pe.hash.value.fed);
      cache.pieces := cache.pieces[id := H.WithoutHash(pe, true)];
      cache.UpdateCacheState(id, now);
      StateKeepsPiece(H.Published(t, id).c, id, now);
    }
    var _ := cache.MaybeFreePiece(id);
  }

  lemma StateKeepsPiece(c: Cache, id: PieceId, now: int)
    requires CacheInv(c) && id in c.pieces && now >= c.clock
    ensures |c.lru| == NUM_LRUS && 0 <= c.pieces[id].cacheState < NUM_LRUS && id in UpdateState(c, id, now).pieces
  {
    hide CacheInv, PieceOk;
    PieceFacts(c, id);
    UpdateStateEffect(c, id, now);
  }

  /** do_hash when there is no buffer to read into: the hash is given up. */
  method HashAbandoned(cache: BlockCache, id: PieceId, blocks: seq<nat>, offset: int, ghost s: State, ghost i: nat)
    requires Inv(s) && cache.Abs() == s.c && H.CanFailHash(s, i)
    requires id == s.fl[i].id && blocks == s.fl[i].blocks && s.c.blockSize > 0
    requires offset == Off(s.fl[i].kind.at, s.c.blockSize, s.c.pieces[id].size)
    modifies cache
    ensures cache.Abs() == H.FailHash(s, i, false).c
  {
    hide Inv, CacheInv, PieceOk, Editable, EditBlocks, H.Unlocked, Off, MaybeFree, H.CanUnlock;
    H.HashLandedFacts(s, i);
    Unlock(cache, id, blocks, offset, s, i);
    H.WithoutHashKeeps(H.HashLanded(s, i).c, id);
    cache.pieces := cache.pieces[id := H.WithoutHash(cache.pieces[id], false)];
    var _ := cache.MaybeFreePiece(id);
  }

  // ---------------------------------------------------------------------- do_read

  /** The section holds exactly the blocks it inserted. */
  lemma {:induction false} InsertedBlocks(s: State, i: nat, k: nat, bufs: seq<Buf>)
    requires R.CanInsertAll(s, i, k, bufs)
    ensures var t := R.InsertAll(s, i, k, bufs);
      && i < |t.fl| && t.fl[i].blocks == s.fl[i].blocks + H.Range(k, k + |bufs|) && t.fl[i] == s.fl[i].(blocks := t.fl[i].blocks, bufs := t.fl[i].bufs)
    decreases |bufs|
  {
    hide CacheInv, Outside, R.CanInsertAll, InsertOne, H.CanInsert;
    if bufs == [] {
      assert H.Range(k, k) == [];
      assert s.fl[i].blocks + [] == s.fl[i].blocks by { assert i < |s.fl| by { InsertIndex(s, i, k, bufs); } }
      InsertIndex(s, i, k, bufs);
    } else {
      R.InsertHeldNext(s, i, k, bufs);
      InsertIndex(s, i, k, bufs);
      InsertedBlocks(R.InsertHeld(s, i, k, bufs[0]), i, k + 1, bufs[1..]);
      assert [k] + H.Range(k + 1, k + |bufs|) == H.Range(k, k + |bufs|);
      assert s.fl[i].blocks + ([k] + H.Range(k + 1, k + |bufs|)) == (s.fl[i].blocks + [k]) + H.Range(k + 1, k + |bufs|);
    }
  }

  lemma InsertIndex(s: State, i: nat, k: nat, bufs: seq<Buf>)
    requires R.CanInsertAll(s, i, k, bufs)
    ensures i < |s.fl|
  {}

  /** While a section holds blocks of a piece, the piece is not freed, and marking it as
      not being read can be done before or after giving the blocks back. */
  lemma CloseParts(w: State, i: nat)
    requires Inv(w) && i < |w.fl| && w.fl[i].kind.Serving? && w.fl[i].blocks != []
    requires w.fl[i].kind.next.None? ==> w.fl[i].id in w.c.pieces && w.c.pieces[w.fl[i].id].readJobs == []
    ensures var f := w.fl[i];
      && CacheInv(w.c) && f.id in w.c.pieces && Editable(w.c.pieces[f.id], f.blocks, DecRef)
      && var p := w.c.pieces[f.id]; var m := SetPiece(w.c, f.id, p.(outstandingRead := false));
        && CacheInv(m) && f.id in m.pieces && MaybeFree(m, f.id) == m && Editable(m.pieces[f.id], f.blocks, DecRef)
        && R.CloseRead(w, i).c == if f.kind.next.Some? then EditBlocks(w.c, f.id, f.blocks, DecRef) else EditBlocks(m, f.id, f.blocks, DecRef)
  {
    hide Inv, CacheInv, EditBlocks, Editable, PieceOk, MaybeFree;
    var f := w.fl[i];
    R.ReaderFacts(w, i);
    R.ReleaseKeeps(w, i);
    H.InInv(w);
    var p := w.c.pieces[f.id];
    var q := p.(outstandingRead := false);
    R.QueueKeepsCache(w.c, f.id, q);
    EditMarked(w.c, f.id, q, f.blocks, DecRef);
    EditedMarks(w.c, f.id, f.blocks, DecRef);
    HeldNotFreed(SetPiece(w.c, f.id, q), f.id, f.blocks);
    var e := EditBlocks(w.c, f.id, f.blocks, DecRef);
    SameSet(e, f.id);
    hide Dressed;
    CloseIs(w, i, e);
  }

  lemma SameSet(c: Cache, id: PieceId)
    requires id in c.pieces
    ensures SetPiece(c, id, c.pieces[id].(readJobs := c.pieces[id].readJobs)) == c
  {
    assert c.pieces[id := c.pieces[id]] == c.pieces;
  }

  lemma CloseIs(w: State, i: nat, e: Cache)
    requires Inv(w) && i < |w.fl| && w.fl[i].kind.Serving? && w.fl[i].blocks != []
    requires w.fl[i].kind.next.None? ==> w.fl[i].id in w.c.pieces && w.c.pieces[w.fl[i].id].readJobs == []
    requires w.fl[i].id in w.c.pieces && Editable(w.c.pieces[w.fl[i].id], w.fl[i].blocks, DecRef)
    requires e == EditBlocks(w.c, w.fl[i].id, w.fl[i].blocks, DecRef) && w.fl[i].id in e.pieces
    ensures R.CloseRead(w, i).c == if w.fl[i].kind.next.Some?
      then SetPiece(e, w.fl[i].id, e.pieces[w.fl[i].id].(readJobs := e.pieces[w.fl[i].id].readJobs))
      else SetPiece(e, w.fl[i].id, e.pieces[w.fl[i].id].(outstandingRead := false))
  {
    hide Inv, CacheInv, EditBlocks, Editable, PieceOk, MaybeFree;
  }

  lemma HeldNotFreed(c: Cache, id: PieceId, ks: seq<nat>)
    requires CacheInv(c) && id in c.pieces && ks != [] && Editable(c.pieces[id], ks, DecRef)
    ensures MaybeFree(c, id) == c
  {
    hide CacheInv;
    PieceFacts(c, id);
    assert CanEdit(DecRef, c.pieces[id].blocks[ks[0]]);
    TallyZero(c.pieces[id].blocks, ks[0]);
    hide Tally, Editable;
  }

  /** The section once the blocks are inserted (`t`) and its own job is served (`v`). */
  ghost predicate Served(s: State, i: nat, id: PieceId, job: ReadJob, bufs: seq<Buf>, t: State, v: State, now: int) {
    && CacheInv(s.c) && s.c.blockSize > 0 && id in s.c.pieces && |s.c.lru| == NUM_LRUS && 0 <= s.c.pieces[id].cacheState < NUM_LRUS
    && FirstBlock(job, s.c.blockSize) >= 0 && FirstBlock(job, s.c.blockSize) + |bufs| <= |s.c.pieces[id].blocks| && bufs != []
    && R.CanTry(t.c, job, now) && v.c == R.TryRead(t.c, job, now).0
    && Inv(v) && i < |v.fl| && v.fl[i].kind == Serving(None) && v.fl[i].id == id && id in v.c.pieces && v.c.clock <= now
    && v.fl[i].blocks == H.Range(FirstBlock(job, s.c.blockSize), FirstBlock(job, s.c.blockSize) + |bufs|)
    && v.completed == s.completed + multiset{job}
    && var h := CacheHit(s.c, id, job.requester, job.volatileRead, now);
      && C.CanInsertRun(h, id, FirstBlock(job, s.c.blockSize), bufs)
      && t.c == C.InsertRun(h, id, FirstBlock(job, s.c.blockSize), bufs, true)
  }

  lemma ServedParts(s: State, i: nat, readAhead: nat, bufs: seq<Buf>, abort: bool, now: int)
    returns (t: State, v: State)
    requires Inv(s) && R.CanReadDone(s, i, readAhead, bufs, now)
    ensures Served(s, i, s.fl[i].id, s.fl[i].kind.job, bufs, t, v, now)
    ensures R.ReadDone(s, i, readAhead, bufs, abort, now) == R.Dispatch(v, i, abort, now)
  {
    hide Inv, R.Stored, R.OwnServed, R.PadJob, Outside, R.Dispatch, CacheHit, C.InsertRun, R.CanTry, R.TryRead, R.Tried, C.CanInsertRun, JobFits;
    hide R.CanInsertAll, CacheInv, FirstBlock;
    var id, job := s.fl[i].id, s.fl[i].kind.job;
    H.InvFacts(s, id);
    R.ArrivedKeeps(s, i);
    var a := R.Arrived(s, i);
    R.StoredKeeps(s, a, i, readAhead, bufs, now);
    t := R.Stored(a, i, job, bufs, now);
    R.OwnServedKeeps(t, i, now);
    v := R.OwnServed(t, i, now);
    StoredParts(s, a, i, id, job, readAhead, bufs, now);
    OwnParts(t, i, job, now);
  }

  lemma StoredParts(s: State, a: State, i: nat, id: PieceId, job: ReadJob, readAhead: nat, bufs: seq<Buf>, now: int)
    requires R.CanReadDone(s, i, readAhead, bufs, now) && id == s.fl[i].id && job == s.fl[i].kind.job && a == R.Arrived(s, i) && a.c == s.c
    requires s.fl[i].blocks == [] && JobFits(job, id, |s.c.pieces[id].blocks|, s.c.blockSize) && R.CanStore(a, i, job, bufs, now)
    ensures s.c.blockSize > 0 && FirstBlock(job, s.c.blockSize) >= 0 && bufs != []
    ensures FirstBlock(job, s.c.blockSize) + |bufs| <= |s.c.pieces[id].blocks|
    ensures |s.c.lru| == NUM_LRUS && 0 <= s.c.pieces[id].cacheState < NUM_LRUS
    ensures var t := R.Stored(a, i, job, bufs, now); var h := CacheHit(s.c, id, job.requester, job.volatileRead, now);
      && C.CanInsertRun(h, id, FirstBlock(job, s.c.blockSize), bufs)
      && t.c == C.InsertRun(h, id, FirstBlock(job, s.c.blockSize), bufs, true)
      && i < |t.fl| && t.fl[i].blocks == H.Range(FirstBlock(job, s.c.blockSize), FirstBlock(job, s.c.blockSize) + |bufs|)
      && t.completed == s.completed
  {
    hide CacheHit, C.InsertRun, C.CanInsertRun, R.CanInsertAll, Outside, CacheInv, R.InsertAll, R.PadJob, FirstBlock;
    var h := CacheHit(s.c, id, job.requester, job.volatileRead, now);
    R.OwnFits(job, id, |s.c.pieces[id].blocks|, s.c.blockSize);
    R.PadCovers(job, |s.c.pieces[id].blocks|, readAhead, s.c.blockSize);
    R.FirstInPiece(job, |s.c.pieces[id].blocks|, s.c.blockSize);
    var b := a.(c := h);
    C.InsertAllIs(b, i, FirstBlock(job, s.c.blockSize), bufs);
    InsertedBlocks(b, i, FirstBlock(job, s.c.blockSize), bufs);
    InsertBooks(b, i, FirstBlock(job, s.c.blockSize), bufs);
    assert [] + H.Range(FirstBlock(job, s.c.blockSize), FirstBlock(job, s.c.blockSize) + |bufs|) ==
           H.Range(FirstBlock(job, s.c.blockSize), FirstBlock(job, s.c.blockSize) + |bufs|);
  }

  lemma {:induction false} InsertBooks(s: State, i: nat, k: nat, bufs: seq<Buf>)
    requires R.CanInsertAll(s, i, k, bufs)
    ensures R.InsertAll(s, i, k, bufs).completed == s.completed
    decreases |bufs|
  {
    hide R.CanInsertAll, R.InsertHeld, CacheInv, Outside;
    if bufs != [] {
      R.InsertHeldNext(s, i, k, bufs);
      InsertBooks(R.InsertHeld(s, i, k, bufs[0]), i, k + 1, bufs[1..]);
    }
  }

  lemma OwnParts(t: State, i: nat, job: ReadJob, now: int)
    requires R.CanOwn(t, i, now) && t.fl[i].kind == Serving(Some(job))
    ensures var v := R.OwnServed(t, i, now); v.c == R.TryRead(t.c, job, now).0 && v.completed == t.completed + multiset{job}
  {
    hide R.TryRead, R.Tried, R.CanTry, CacheInv;
    R.TriedHeld(t, job, now);
    C.TriedCache(t, job, now);
    var u := R.Tried(t, job, now);
    SameSet(u.c, t.fl[i].id);
  }

  /** What is completed or queued does not change when the section closes. */
  lemma CloseBooks(w: State, i: nat)
    requires Inv(w) && i < |w.fl| && w.fl[i].kind.Serving?
    requires w.fl[i].kind.next.None? ==> w.fl[i].id in w.c.pieces && w.c.pieces[w.fl[i].id].readJobs == []
    ensures R.CloseRead(w, i).completed == w.completed
  {
    hide Inv, CacheInv, EditBlocks, Editable, MaybeFree;
    R.ReleaseKeeps(w, i);
  }

  /** The end of maybe_issue_queued_read_jobs and of do_read: without another job to issue
      the piece is not being read any more; then the blocks are given back. */
  method CloseSection(cache: BlockCache, id: PieceId, next: Option<ReadJob>, blocks: seq<nat>, ghost w: State, ghost i: nat)
    requires Inv(w) && cache.Abs() == w.c && i < |w.fl| && w.fl[i].kind == Serving(next) && w.fl[i].id == id && id in w.c.pieces
    requires blocks == w.fl[i].blocks && blocks != [] && (next.None? ==> w.c.pieces[id].readJobs == [])
    modifies cache
    ensures cache.Abs() == R.CloseRead(w, i).c
  {
    hide Inv, CacheInv, EditBlocks, Editable, PieceOk, MaybeFree, R.CloseRead;
    CloseParts(w, i);
    if next.None? {
      cache.pieces := cache.pieces[id := cache.pieces[id].(outstandingRead := false)];
      var _ := cache.MaybeFreePiece(id);
    }
    T.DecBlocks(cache, id, blocks);
  }

  /** do_read from where it takes the mutex again, after a read that succeeded. */
  method ReadEnd(cache: BlockCache, id: PieceId, job: ReadJob, bufs: seq<Buf>, abort: bool, now: int,
                 ghost readAhead: nat, ghost s: State, ghost i: nat)
    returns (completed: seq<ReadJob>)
    requires Inv(s) && cache.Abs() == s.c && R.CanReadDone(s, i, readAhead, bufs, now)
    requires id == s.fl[i].id && job == s.fl[i].kind.job
    modifies cache
    ensures var t := R.ReadDone(s, i, readAhead, bufs, abort, now);
      cache.Abs() == t.c && t.completed == s.completed + multiset(completed)
  {
    hide Inv, CacheInv, EditBlocks, Editable, PieceOk, MaybeFree, R.CloseRead, R.ReadDone, R.ServeAll, R.TryRead, R.CanTry;
    hide C.InsertRun, C.CanInsertRun, CacheHit, FirstBlock, H.Range, R.PadJob;
    ghost var t, v := ServedParts(s, i, readAhead, bufs, abort, now);
    var block := FirstBlock(job, cache.blockSize);
    C.InsertBlocks(cache, id, block, bufs, job.requester, job.volatileRead, true, now);
    var _ := C.TryRead(cache, job, now);
    completed := [job];
    var next: Option<ReadJob> := None;
    ghost var w;
    if abort {
      R.FailQueuedKeeps(v, i);
      w := R.FailQueued(v, i);
      cache.pieces := cache.pieces[id := cache.pieces[id].(readJobs := [])];
    } else {
      R.ServeAllKeeps(v, i, |v.c.pieces[id].readJobs|, now);
      w := R.ServeAll(v, i, |v.c.pieces[id].readJobs|, now);
      var done;
      next, done := C.ServeQueue(cache, id, now, v, i);
      completed := completed + done;
    }
    CloseBooks(w, i);
    CloseSection(cache, id, next, H.Range(block, block + |bufs|), w, i);
  }
}
