/** The block cache object: the loops and counter updates of block_cache.cpp. */
module BlockCaches {
  import opened CacheModel
  import opened CacheSpec
  import opened BlockEdits
  import opened CacheOps
  import opened Eviction

  /** Entries live in the `pieces` map and the six lists hold their keys; `pool` and
      `clock` stand for the buffer pool and the time source. */
  class BlockCache {
    const blockSize: int
    var pieces: map<PieceId, Piece>
    var lru: seq<seq<PieceId>>
    var readCacheSize: int
    var writeCacheSize: int
    var pinnedBlocks: int
    var lastCacheOp: CacheOp
    var ghostSize: int
    ghost var pool: set<nat>
    ghost var clock: int

    ghost function Abs(): Cache
      reads this
    {
      Cache(blockSize, pieces, lru, readCacheSize, writeCacheSize, pinnedBlocks, lastCacheOp, ghostSize, clock, pool)
    }

    ghost predicate Valid()
      reads this
    {
      CacheInv(Abs())
    }

    constructor (blockSize: int)
      requires blockSize > 0
      ensures Valid() && pieces == map[] && pool == {} && this.blockSize == blockSize
    {
      this.blockSize := blockSize;
      pieces := map[];
      lru := [[], [], [], [], [], []];
      readCacheSize, writeCacheSize, pinnedBlocks := 0, 0, 0;
      lastCacheOp := CacheMiss;
      ghostSize := 8;
      pool := {};
      clock := 0;
      new;
      assert Total(map[]) == NONE;
    }

    /** False if the block holds no buffer. */
    method IncBlockRefcount(id: PieceId, block: nat) returns (ok: bool)
      requires Valid() && id in pieces && block < |pieces[id].blocks|
      modifies this
      ensures Valid() && ok == old(pieces)[id].blocks[block].buf.Buf?
      ensures Abs() == if ok then EditBlocks(old(Abs()), id, [block], IncRef) else old(Abs())
    {
      hide CacheInv, Tally, Put, Editable, EditAll;
      var pe := pieces[id];
      if pe.blocks[block].buf.Null? { return false; }
      ghost var c := Abs();
      EditOne(c, id, block, IncRef);
      var b := pe.blocks[block];
      if b.refcount == 0 {
        pe := pe.(pinned := pe.pinned + 1);
        pinnedBlocks := pinnedBlocks + 1;
      }
      pe := pe.(blocks := pe.blocks[block := b.(refcount := b.refcount + 1)], refcount := pe.refcount + 1);
      pieces := pieces[id := pe];
      return true;
    }

    method DecBlockRefcount(id: PieceId, block: nat)
      requires Valid() && id in pieces && block < |pieces[id].blocks| && CanEdit(DecRef, pieces[id].blocks[block])
      modifies this
      ensures Valid() && Abs() == EditBlocks(old(Abs()), id, [block], DecRef)
    {
      hide CacheInv, Tally, Put, Editable, EditAll;
      ghost var c := Abs();
      EditOne(c, id, block, DecRef);
      var pe := pieces[id];
      var b := pe.blocks[block];
      b := b.(refcount := b.refcount - 1);
      pe := pe.(blocks := pe.blocks[block := b], refcount := pe.refcount - 1);
      if b.refcount == 0 {
        pe := pe.(pinned := pe.pinned - 1);
        pinnedBlocks := pinnedBlocks - 1;
      }
      pieces := pieces[id := pe];
    }

    /** Frees one block nobody references, dirty or clean. */
    method FreeBlock(id: PieceId, block: nat)
      requires Valid() && id in pieces && block < |pieces[id].blocks| && CanEdit(Free, pieces[id].blocks[block])
      modifies this
      ensures Valid() && Abs() == EditBlocks(old(Abs()), id, [block], Free)
    {
      hide CacheInv, Tally, Put, Editable, EditAll;
      ghost var c := Abs();
      EditOne(c, id, block, Free);
      var pe := pieces[id];
      var b := pe.blocks[block];
      if b.dirty {
        pe := pe.(numDirty := pe.numDirty - 1);
        b := b.(dirty := false);
        writeCacheSize := writeCacheSize - 1;
      } else {
        readCacheSize := readCacheSize - 1;
      }
      pe := pe.(numBlocks := pe.numBlocks - 1);
      pool := pool - {b.buf.addr};
      b := b.(buf := Null);
      pe := pe.(blocks := pe.blocks[block := b]);
      pieces := pieces[id := pe];
    }

    // ------------------------------------------------------------ LRU lists

    /** Links piece `id` at the back of list `state`. */
    method MoveToList(id: PieceId, state: int, now: int)
      requires Valid() && id in pieces && now >= clock && Allocatable(state)
      requires pieces[id].numDirty > 0 ==> state == WRITE_LRU
      modifies this
      ensures Valid() && |old(lru)| == NUM_LRUS && 0 <= old(pieces)[id].cacheState < NUM_LRUS
      ensures Abs() == MoveTo(old(Abs()), id, state, now)
    {
      hide CacheInv, Tally, Without;
      PieceFacts(Abs(), id);
      MoveKeeps(Abs(), id, state, now);
      var pe := pieces[id];
      lru := lru[pe.cacheState := Without(lru[pe.cacheState], id)];
      lru := lru[state := lru[state] + [id]];
      pieces := pieces[id := pe.(cacheState := state, expire := now)];
      clock := now;
    }

    method UpdateCacheState(id: PieceId, now: int)
      requires Valid() && id in pieces && now >= clock
      modifies this
      ensures Valid() && |old(lru)| == NUM_LRUS && 0 <= old(pieces)[id].cacheState < NUM_LRUS
      ensures Abs() == UpdateState(old(Abs()), id, now)
    {
      hide CacheInv, MoveTo, PieceOk;
      PieceFacts(Abs(), id);
      var pe := pieces[id];
      var state := pe.cacheState;
      var desired := pe.cacheState;
      if pe.numDirty > 0 || pe.hash.Some? {
        desired := WRITE_LRU;
      } else if pe.cacheState == WRITE_LRU {
        desired := READ_LRU1;
      }
      if desired == state { return; }
      MoveToList(id, desired, now);
    }

    method CacheHit(id: PieceId, requester: nat, volatileRead: bool, now: int)
      requires Valid() && id in pieces && now >= clock
      modifies this
      ensures Valid() && |old(lru)| == NUM_LRUS && 0 <= old(pieces)[id].cacheState < NUM_LRUS
      ensures Abs() == CacheOps.CacheHit(old(Abs()), id, requester, volatileRead, now)
    {
      hide CacheInv, MoveTo, PieceOk;
      ghost var c := Abs();
      PieceFacts(c, id);
      assert c.pieces[id := c.pieces[id]] == c.pieces;
      CacheHitKeeps(c, id, requester, volatileRead, now);
      var target := READ_LRU2;
      var pe := pieces[id];
      if pe.lastRequester == requester || requester == 0 {
        if pe.cacheState == READ_LRU1 || pe.cacheState == READ_LRU2 || pe.cacheState == WRITE_LRU
           || pe.cacheState == VOLATILE_LRU {
          return;
        }
        if pe.cacheState == READ_LRU1_GHOST { target := READ_LRU1; }
      }
      if pe.cacheState == VOLATILE_LRU {
        if volatileRead { return; }
        target := READ_LRU1;
      }
      if requester != 0 {
        ghost var q := pe.(lastRequester := requester);
        SetPieceKeeps(c, id, q);
        pieces := pieces[id := pe.(lastRequester := requester)];
      }
      if pe.cacheState < READ_LRU1 || pe.cacheState > READ_LRU2_GHOST { return; }
      LastOpKeeps(Abs(), HitOp(pe.cacheState, c.lastOp));
      if pe.cacheState == READ_LRU1_GHOST {
        lastCacheOp := GhostHitLru1;
      } else if pe.cacheState == READ_LRU2_GHOST {
        lastCacheOp := GhostHitLru2;
      }
      MoveToList(id, target, now);
    }

    /** Finds or creates the piece and retains it. */
    method AllocatePiece(id: PieceId, size: int, requester: nat, state: int, now: int)
      requires Valid() && size > 0 && Allocatable(state) && now >= clock
      modifies this
      ensures Valid() && |old(lru)| == NUM_LRUS && blockSize > 0
      ensures id in old(pieces) ==> 0 <= old(pieces)[id].cacheState < NUM_LRUS
      ensures Abs() == CacheOps.AllocatePiece(old(Abs()), id, size, requester, state, now)
    {
      hide CacheInv, MoveTo, PieceOk, NewPiece;
      ghost var c := Abs();
      AllocateKeeps(c, id, size, requester, state, now);
      if id !in pieces {
        var pe := NewPiece(size, blockSize, requester, state, now);
        NewPieceFields(size, blockSize, requester, state, now);
        pieces := pieces[id := pe];
        lru := lru[state := lru[state] + [id]];
        clock := now;
        if state == READ_LRU1 { lastCacheOp := CacheMiss; }
      } else {
        var pe := pieces[id].(markedForEviction := false);
        PieceFacts(c, id);
        SetPieceKeeps(c, id, pe);
        pieces := pieces[id := pe];
        if pe.cacheState > state { MoveToList(id, state, now); }
      }
    }

    method ErasePiece(id: PieceId)
      requires Valid() && id in pieces && pieces[id].numBlocks == 0 && OkToEvict(pieces[id], false)
      modifies this
      ensures Valid() && |old(lru)| == NUM_LRUS && 0 <= old(pieces)[id].cacheState < NUM_LRUS
      ensures Abs() == Erase(old(Abs()), id)
    {
      hide CacheInv, PieceOk, Without, OkToEvict, Evicts;
      PieceFacts(Abs(), id);
      EraseEvicts(Abs(), id);
      var state := pieces[id].cacheState;
      lru := lru[state := Without(lru[state], id)];
      pieces := pieces - {id};
    }

    /** Links the piece at the back of its list again. */
    method BumpLru(id: PieceId, now: int)
      requires Valid() && id in pieces && now >= clock && pieces[id].cacheState == WRITE_LRU
      modifies this
      ensures Valid() && |old(lru)| == NUM_LRUS && 0 <= old(pieces)[id].cacheState < NUM_LRUS
      ensures Abs() == MoveTo(old(Abs()), id, WRITE_LRU, now)
    {
      MoveToList(id, WRITE_LRU, now);
    }

    /** Demotes an unused, empty piece. */
    method MoveToGhost(id: PieceId)
      requires Valid() && id in pieces && pieces[id].numBlocks == 0 && OkToEvict(pieces[id], false)
      modifies this
      ensures Valid() && Abs() == Eviction.MoveToGhost(old(Abs()), id)
      ensures Evicts(old(Abs()), Abs())
    {
      hide CacheInv, PieceOk, ToGhostList, OkToEvict, Evicts, Erase;
      ghost var c := Abs();
      PieceFacts(c, id);
      MoveToGhostLemma(c, id);
      var pe := pieces[id];
      if pe.cacheState == VOLATILE_LRU {
        ErasePiece(id);
        return;
      }
      if pe.cacheState != READ_LRU1 && pe.cacheState != READ_LRU2 { return; }
      var ghostList := pe.cacheState + 1;
      TrimGhostsLemma(c, ghostList);
      while |lru[ghostList]| >= ghostSize
        invariant Valid() && |lru| == NUM_LRUS && id in pieces && pieces[id] == pe
        invariant TrimGhosts(Abs(), ghostList) == TrimGhosts(c, ghostList)
        decreases |lru[ghostList]|
      {
        TrimFacts(Abs(), ghostList);
        var p := lru[ghostList][0];
        ErasedOnly(Abs(), p);
        ErasePiece(p);
        CacheFacts(Abs());
      }
      LinkAsGhost(id);
    }

    /** Unlinks the piece and links it at the back of the list after its own. */
    method LinkAsGhost(id: PieceId)
      requires |lru| == NUM_LRUS && id in pieces && 0 <= pieces[id].cacheState < NUM_LRUS - 1
      modifies `lru, `pieces
      ensures Abs() == ToGhostList(old(Abs()), id)
    {
      hide Without;
      var pe := pieces[id];
      lru := lru[pe.cacheState := Without(lru[pe.cacheState], id)];
      pe := pe.(cacheState := pe.cacheState + 1);
      pieces := pieces[id := pe];
      lru := lru[pe.cacheState := lru[pe.cacheState] + [id]];
    }

    /** Frees every unreferenced block; true if the piece could then be evicted, in
        which case its jobs are handed back. */
    method EvictPiece(id: PieceId, mode: EvictionMode) returns (evicted: bool, jobs: seq<WriteJob>)
      requires Valid() && id in pieces
      modifies this
      ensures Valid() && (Abs(), evicted) == Eviction.EvictPiece(old(Abs()), id, mode)
      ensures jobs == if evicted then old(pieces)[id].jobs else []
    {
      hide CacheInv, PieceOk, OkToEvict, Evicts, EditAll, Editable, CanEdit;
      ghost var c := Abs();
      EvictUnreferenced(id);
      EvictBlocksLemma(c, id);
      EvictPieceKeeps(c, id, mode);
      jobs := [];
      var pe := pieces[id];
      if OkToEvict(pe, true) && pe.numBlocks == 0 {
        ghost var d := Abs();
        RetireKeeps(d, id);
        RetireOk(pe);
        jobs := pe.jobs;
        pieces := pieces[id := pe.(hash := None, jobs := [])];
        PieceFacts(d, id);
        if mode == AllowGhost && (pe.cacheState == READ_LRU1_GHOST || pe.cacheState == READ_LRU2_GHOST) { return true, jobs; }
        if mode == DisallowGhost || pe.cacheState == WRITE_LRU || pe.cacheState == VOLATILE_LRU {
          ErasePiece(id);
        } else {
          MoveToGhost(id);
        }
        return true, jobs;
      }
      return false, [];
    }

    method EvictUnreferenced(id: PieceId)
      requires Valid() && id in pieces
      modifies this
      ensures Valid() && Abs() == EvictBlocks(old(Abs()), id)
    {
      hide CacheInv, PieceOk, EditBlocks, Editable, CanEdit, Unreferenced;
      ghost var c := Abs();
      EvictNone(c, id);
      var i := 0;
      while i < |pieces[id].blocks|
        invariant id in pieces && i <= |pieces[id].blocks| == |c.pieces[id].blocks|
        invariant Valid() && Abs() == EvictBelow(c, id, i)
      {
        EvictStep(c, id, i);
        if pieces[id].blocks[i].buf.Buf? && pieces[id].blocks[i].refcount == 0 {
          FreeBlock(id, i);
          if pieces[id].numBlocks == 0 {
            NoneLeft(c, id, i + 1);
            return;
          }
        }
        i := i + 1;
      }
      hide *;
    }

    /** Frees up to `num` evictable blocks below `end`, lowest index first. */
    method EvictClean(id: PieceId, end: int, num: int) returns (left: int)
      requires Valid() && id in pieces && 0 <= end <= |pieces[id].blocks| && num >= 0
      modifies this
      ensures Valid() && Evicts(old(Abs()), Abs()) && lru == old(lru)
      ensures 0 <= left <= num && readCacheSize == old(readCacheSize) - (num - left)
      ensures pieces.Keys == old(pieces).Keys && pieces == old(pieces)[id := pieces[id]]
      ensures pieces[id] == old(pieces)[id].(blocks := pieces[id].blocks, numBlocks := pieces[id].numBlocks)
      ensures |pieces[id].blocks| == |old(pieces)[id].blocks|
      ensures forall k :: end <= k < |pieces[id].blocks| ==> pieces[id].blocks[k] == old(pieces)[id].blocks[k]
      ensures left > 0 ==> DrainedBelow(pieces[id], end)
    {
      hide CacheInv, PieceOk, EditBlocks, Editable, Evicts;
      ghost var c := Abs();
      EvictsRefl(c);
      left := num;
      var j := 0;
      while j < end && left > 0
        invariant id in pieces && 0 <= j <= end <= |pieces[id].blocks|
        invariant Valid() && Evicts(c, Abs()) && lru == old(lru)
        invariant 0 <= left <= num && readCacheSize == old(readCacheSize) - (num - left)
        invariant pieces.Keys == old(pieces).Keys && pieces == old(pieces)[id := pieces[id]]
        invariant pieces[id] == old(pieces)[id].(blocks := pieces[id].blocks, numBlocks := pieces[id].numBlocks)
        invariant |pieces[id].blocks| == |old(pieces)[id].blocks|
        invariant forall k :: j <= k < |pieces[id].blocks| ==> pieces[id].blocks[k] == old(pieces)[id].blocks[k]
        invariant DrainedBelow(pieces[id], j)
      {
        var b := pieces[id].blocks[j];
        if !(b.buf.Null? || b.refcount > 0 || b.dirty || b.pending) {
          PieceFacts(Abs(), id);
          BlockFacts(pieces[id], blockSize, j);
          ghost var d := Abs();
          FreeEvicts(d, id, j);
          FreeBlock(id, j);
          EvictsTrans(c, d, Abs());
          left := left - 1;
        }
        j := j + 1;
      }
    }

    /** What the eviction walk does with one piece of a list. */
    method EvictFromPiece(id: PieceId, hashedOnly: bool, num: int) returns (left: int)
      requires Valid() && id in pieces && !IsGhost(pieces[id].cacheState) && num > 0 && blockSize > 0
      modifies this
      ensures Valid() && Evicts(old(Abs()), Abs())
      ensures 0 <= left <= num && readCacheSize == old(readCacheSize) - (num - left)
      ensures forall x :: x in old(pieces) && x != id && !IsGhost(old(pieces)[x].cacheState) ==>
                x in pieces && pieces[x] == old(pieces)[x]
      ensures OtherLists(old(lru), lru, old(pieces)[id].cacheState)
      ensures left > 0 ==> Settled(Abs(), id, hashedOnly, None)
      ensures KeptFrom(old(Abs()), Abs(), id, WalkEnd(old(pieces)[id], blockSize, hashedOnly))
      ensures NoHusks(old(Abs()), Abs())
    {
      hide CacheInv, PieceOk, OkToEvict, Evicts, NoHusks;
      ghost var c := Abs();
      SameHusks(c);
      var pe := pieces[id];
      PieceFacts(c, id);
      EvictsRefl(c);
      HashedEndBound(pe, blockSize);
      if OkToEvict(pe, false) && pe.numBlocks == 0 {
        NoBlocksPiece(pe, blockSize);
        Demote(id);
        DemotedHusks(c, Abs(), id);
        return num;
      }
      if pe.cacheState != WRITE_LRU {
        // all blocks are pinned in this piece
        if pe.numBlocks <= pe.pinned { NothingToTake(pe, blockSize); return num; }
      } else {
        // all blocks in this piece are dirty
        if pe.numDirty == pe.numBlocks { NothingToTake(pe, blockSize); return num; }
      }
      var end := if hashedOnly && pe.hash.Some? then pe.hash.value.offset / blockSize else |pe.blocks|;
      left := EvictClean(id, end, num);
      ghost var d := Abs();
      pe := pieces[id];
      if OkToEvict(pe, false) && pe.numBlocks == 0 {
        PieceFacts(d, id);
        NoBlocksPiece(pe, blockSize);
        Demote(id);
        EvictsTrans(c, d, Abs());
        DemotedHusks(c, Abs(), id);
      } else {
        InUseHusks(c, d, id);
      }
    }

    /** A piece of the write list is erased, any other is moved to its ghost list. */
    method Demote(id: PieceId)
      requires Valid() && id in pieces && pieces[id].numBlocks == 0 && OkToEvict(pieces[id], false)
      modifies this
      ensures Valid() && Evicts(old(Abs()), Abs()) && readCacheSize == old(readCacheSize)
      ensures OtherLists(old(lru), lru, old(pieces)[id].cacheState)
      ensures forall x :: x in old(pieces) && x != id && !IsGhost(old(pieces)[x].cacheState) ==>
                x in pieces && pieces[x] == old(pieces)[x]
      ensures id in pieces ==> forall k :: 0 <= k < |pieces[id].blocks| ==> pieces[id].blocks[k] == EMPTY
      ensures id in pieces && !IsGhost(old(pieces)[id].cacheState) ==> IsGhost(pieces[id].cacheState)
    {
      hide CacheInv, PieceOk, OkToEvict, Evicts, Without;
      ghost var c := Abs();
      PieceFacts(c, id);
      NoBlocksPiece(pieces[id], blockSize);
      if pieces[id].cacheState == WRITE_LRU {
        EraseEvicts(c, id);
        ErasePiece(id);
      } else {
        forall x | x in c.pieces && x != id && !IsGhost(c.pieces[x].cacheState)
          ensures x in Eviction.MoveToGhost(c, id).pieces && Eviction.MoveToGhost(c, id).pieces[x] == c.pieces[x]
        {
          MoveToGhostFrame(c, id, x);
        }
        MoveToGhostEmpty(c, id);
        MoveToGhostState(c, id);
        MoveToGhostLists(c, id);
        MoveToGhost(id);
      }
    }

    /** Evicts from the pieces of one list, least recently used first. */
    method EvictFromList(list: int, hashedOnly: bool, num: int, ignore: Option<PieceId>) returns (left: int)
      requires Valid() && Allocatable(list) && |lru| == NUM_LRUS && num > 0
      modifies this
      ensures Valid() && Evicts(old(Abs()), Abs()) && OtherLists(old(lru), lru, list)
      ensures 0 <= left <= num && readCacheSize == old(readCacheSize) - (num - left)
      ensures left > 0 ==> AllSettled(Abs(), old(lru)[list], hashedOnly, ignore)
      ensures InOrder(old(Abs()), Abs(), old(lru)[list], hashedOnly, ignore)
      ensures OthersKept(old(Abs()), Abs(), old(lru)[list])
      ensures hashedOnly ==> KeptPastHash(old(Abs()), Abs(), old(lru)[list])
      ensures forall x :: ignore == Some(x) && x in old(pieces) && !IsGhost(old(pieces)[x].cacheState) ==>
                x in pieces && pieces[x] == old(pieces)[x]
      ensures NoHusks(old(Abs()), Abs())
    {
      hide CacheInv, PieceOk, Evicts, Settled, KeptFrom, InOrder, AllSettled, KeptPastHash, NoHusks;
      ghost var c := Abs();
      ghost var ids := lru[list];
      SameHusks(c);
      CacheFacts(c);
      ListFacts(c, list);
      WalkStart(c, ids, hashedOnly, ignore);
      NothingPastHash(c, ids);
      left := num;
      var rest := lru[list];
      ghost var i := 0;
      while rest != [] && left > 0
        invariant 0 <= i <= |ids| && rest == ids[i..]
        invariant Valid() && Evicts(c, Abs()) && OtherLists(old(lru), lru, list)
        invariant 0 <= left <= num && readCacheSize == old(readCacheSize) - (num - left)
        invariant forall j :: i <= j < |ids| ==> ids[j] in pieces && pieces[ids[j]] == c.pieces[ids[j]]
        invariant left > 0 ==> AllSettled(Abs(), ids[..i], hashedOnly, ignore)
        invariant InOrder(c, Abs(), ids, hashedOnly, ignore)
        invariant hashedOnly ==> KeptPastHash(c, Abs(), ids)
        invariant NoHusks(c, Abs())
        invariant forall x :: x in c.pieces && !IsGhost(c.pieces[x].cacheState) && (x !in ids || ignore == Some(x)) ==>
                    x in pieces && pieces[x] == c.pieces[x]
      {
        var pe := rest[0];
        rest := rest[1..];
        ghost var d := Abs();
        if ignore != Some(pe) {
          left := EvictFromPiece(pe, hashedOnly, left);
          EvictsTrans(c, d, Abs());
          HusksTrans(c, d, Abs());
          WalkStep(c, d, Abs(), ids, i, hashedOnly, ignore);
          if hashedOnly { WalkKeeps(c, d, Abs(), ids, i); }
          if left > 0 { WalkSettled(d, Abs(), ids, i, hashedOnly, ignore); }
        } else {
          WalkSpare(d, ids, i, hashedOnly, ignore);
        }
        i := i + 1;
      }
      assert rest == [] ==> ids[..i] == ids;
    }

    /** Tries to free `num` clean, unreferenced blocks; returns how many it could not. */
    method TryEvictBlocks(num: int, ignore: Option<PieceId>) returns (left: int)
      requires Valid() && (forall x :: ignore == Some(x) && x in pieces ==> !IsGhost(pieces[x].cacheState))
      modifies this
      ensures Valid() && Evicts(old(Abs()), Abs()) && |old(lru)| == NUM_LRUS
      ensures num <= 0 ==> left == 0 && Abs() == old(Abs())
      ensures num > 0 ==> 0 <= left <= num && readCacheSize == old(readCacheSize) - (num - left)
      // what is spared: dirty, pending and referenced blocks (by Evicts) and the ignored piece
      ensures forall x :: ignore == Some(x) && x in old(pieces) ==> x in pieces && pieces[x] == old(pieces)[x]
      // if the demand was not met, the read lists have nothing left to give
      ensures left > 0 ==> AllSettled(Abs(), EvictOrder(old(Abs())), false, ignore)
      // least recently used first, volatile pieces before all others
      ensures InOrder(old(Abs()), Abs(), EvictOrder(old(Abs())), false, ignore)
      // after a hit on a ghost of the first read list the second one pays, after one of
      // the second the first, and after a miss the longer one, the first if they are even
      ensures old(lastCacheOp) == GhostHitLru1 ==> GivesFirst(old(Abs()), Abs(), READ_LRU2, READ_LRU1, ignore)
      ensures old(lastCacheOp) == GhostHitLru2 ==> GivesFirst(old(Abs()), Abs(), READ_LRU1, READ_LRU2, ignore)
      ensures old(lastCacheOp) == CacheMiss && |old(lru)[READ_LRU2]| > |old(lru)[READ_LRU1]| ==>
                GivesFirst(old(Abs()), Abs(), READ_LRU2, READ_LRU1, ignore)
      ensures old(lastCacheOp) == CacheMiss && |old(lru)[READ_LRU2]| <= |old(lru)[READ_LRU1]| ==>
                GivesFirst(old(Abs()), Abs(), READ_LRU1, READ_LRU2, ignore)
      // the write list gives only when the read lists have nothing left
      ensures !OthersKept(old(Abs()), Abs(), EvictOrder(old(Abs()))) ==>
                AllSettled(Abs(), EvictOrder(old(Abs())), false, ignore)
      // a block not hashed yet goes only when no hashed block is left in the write list
      ensures KeptPastHash(old(Abs()), Abs(), old(lru)[WRITE_LRU]) ||
                AllSettled(Abs(), old(lru)[WRITE_LRU], true, ignore)
      // if the demand was not met, neither has the write list, unless it was not looked at
      ensures left > 0 ==> readCacheSize <= pinnedBlocks || AllSettled(Abs(), old(lru)[WRITE_LRU], false, ignore)
      // no unused piece is left behind empty
      ensures NoHusks(old(Abs()), Abs())
    {
      hide CacheInv, PieceOk, Evicts, Settled, KeptFrom, InOrder, AllSettled, OtherLists, OthersKept, NoHusks, GivesFirst;
      ghost var c := Abs();
      CacheFacts(c);
      SameHusks(c);
      ghost var order := EvictOrder(c);
      WalkStart(c, order, false, ignore);
      NothingChanged(c, order);
      NothingPastHash(c, c.lru[WRITE_LRU]);
      if num <= 0 {
        OrderGives(c, c, ignore);
        return 0;
      }
      left := EvictReadLists(num, ignore);
      ghost var d := Abs();
      WriteUntouched(c, d);
      EvictsKeys(c, d);
      if left > 0 && readCacheSize > pinnedBlocks {
        left := EvictWriteList(left, ignore);
        EvictsTrans(c, d, Abs());
        SettledMonotone(d, Abs(), order, false, ignore);
        ReadOrderStays(c, d, Abs(), ignore);
        PastHashSame(c, d, Abs(), c.lru[WRITE_LRU]);
        HusksTrans(c, d, Abs());
      }
      OrderGives(c, Abs(), ignore);
    }

    /** The walk over the volatile list and the two read lists. */
    method EvictReadLists(num: int, ignore: Option<PieceId>) returns (left: int)
      requires Valid() && num > 0 && |lru| == NUM_LRUS
      requires forall x :: ignore == Some(x) && x in pieces ==> !IsGhost(pieces[x].cacheState)
      modifies this
      ensures Valid() && Evicts(old(Abs()), Abs()) && |lru| == NUM_LRUS && lru[WRITE_LRU] == old(lru)[WRITE_LRU]
      ensures 0 <= left <= num && readCacheSize == old(readCacheSize) - (num - left)
      ensures left > 0 ==> AllSettled(Abs(), EvictOrder(old(Abs())), false, ignore)
      ensures InOrder(old(Abs()), Abs(), EvictOrder(old(Abs())), false, ignore)
      ensures OthersKept(old(Abs()), Abs(), EvictOrder(old(Abs())))
      ensures forall x :: ignore == Some(x) && x in old(pieces) ==> x in pieces && pieces[x] == old(pieces)[x]
      ensures NoHusks(old(Abs()), Abs())
    {
      hide CacheInv, PieceOk, Evicts, Settled, KeptFrom, InOrder, AllSettled, OthersKept, NoHusks;
      ghost var c := Abs();
      SameHusks(c);
      var (first, second) := EvictLists(lastCacheOp, |lru[READ_LRU1]|, |lru[READ_LRU2]|);
      var lists := [VOLATILE_LRU, first, second];
      left := num;
      ghost var done: seq<PieceId> := [];
      WalkStart(c, done, false, ignore);
      NothingChanged(c, done);
      var end := 0;
      while left > 0 && end < 3
        invariant 0 <= end <= 3 && |lru| == NUM_LRUS
        invariant done == if end == 0 then [] else if end == 1 then c.lru[VOLATILE_LRU]
                          else if end == 2 then c.lru[VOLATILE_LRU] + c.lru[first]
                          else c.lru[VOLATILE_LRU] + c.lru[first] + c.lru[second]
        invariant Valid() && Evicts(c, Abs())
        invariant 0 <= left <= num && readCacheSize == old(readCacheSize) - (num - left)
        invariant forall i :: 0 <= i < NUM_LRUS && !IsGhost(i) && (forall j :: 0 <= j < end ==> lists[j] != i) ==> lru[i] == c.lru[i]
        invariant left > 0 ==> AllSettled(Abs(), done, false, ignore)
        invariant InOrder(c, Abs(), done, false, ignore)
        invariant OthersKept(c, Abs(), done)
        invariant NoHusks(c, Abs())
        invariant forall x :: ignore == Some(x) && x in c.pieces ==> x in pieces && pieces[x] == c.pieces[x]
      {
        ghost var d := Abs();
        ghost var ids := c.lru[lists[end]];
        OrderParts(c, end);
        left := EvictFromList(lists[end], false, left, ignore);
        EvictsTrans(c, d, Abs());
        HusksTrans(c, d, Abs());
        StageStep(c, d, Abs(), done, ids, lists[end], ignore);
        SettledMonotone(d, Abs(), done, false, ignore);
        if left > 0 { SettledAppend(Abs(), done, ids, ignore); }
        done := done + ids;
        end := end + 1;
      }
      if end < 3 {
        ghost var rest := if end == 2 then c.lru[second] else if end == 1 then c.lru[first] + c.lru[second]
                          else EvictOrder(c);
        OrderParts(c, end);
        StagePrefix(c, Abs(), done, rest, ignore);
        assert done + rest == EvictOrder(c);
      }
    }

    /** The two passes over the write list: first only blocks that have been hashed. */
    method EvictWriteList(num: int, ignore: Option<PieceId>) returns (left: int)
      requires Valid() && num > 0 && |lru| == NUM_LRUS
      requires forall x :: ignore == Some(x) && x in pieces ==> !IsGhost(pieces[x].cacheState)
      modifies this
      ensures Valid() && Evicts(old(Abs()), Abs())
      ensures 0 <= left <= num && readCacheSize == old(readCacheSize) - (num - left)
      ensures OthersKept(old(Abs()), Abs(), old(lru)[WRITE_LRU])
      ensures KeptPastHash(old(Abs()), Abs(), old(lru)[WRITE_LRU]) ||
                AllSettled(Abs(), old(lru)[WRITE_LRU], true, ignore)
      ensures left > 0 ==> AllSettled(Abs(), old(lru)[WRITE_LRU], false, ignore)
      ensures forall x :: ignore == Some(x) && x in old(pieces) ==> x in pieces && pieces[x] == old(pieces)[x]
      ensures NoHusks(old(Abs()), Abs())
    {
      hide CacheInv, PieceOk, Evicts, Settled, KeptFrom, InOrder, AllSettled, KeptPastHash, NoHusks;
      ghost var c := Abs();
      left := EvictFromList(WRITE_LRU, true, num, ignore);
      if left > 0 {
        ghost var d := Abs();
        CacheFacts(d);
        ListFacts(d, WRITE_LRU);
        left := EvictFromList(WRITE_LRU, false, left, ignore);
        EvictsTrans(c, d, Abs());
        SettledMonotone(d, Abs(), c.lru[WRITE_LRU], true, ignore);
        SecondPass(c, d, Abs());
        HusksTrans(c, d, Abs());
        if left > 0 { WriteSettled(c, d, Abs(), ignore); }
      }
    }

    /** Evicts a piece marked for eviction once nothing holds it. */
    method MaybeFreePiece(id: PieceId) returns (freed: bool)
      requires Valid() && id in pieces
      modifies this
      ensures Valid() && Abs() == MaybeFree(old(Abs()), id) && Frees(old(Abs()), Abs(), id)
      ensures freed == FreeNow(old(pieces)[id])
    {
      hide CacheInv, PieceOk, OkToEvict, Evicts, Frees;
      MaybeFreeLemma(Abs(), id);
      var pe := pieces[id];
      if !OkToEvict(pe, false) || !pe.markedForEviction || pe.jobs != [] { return false; }
      var _, _ := EvictPiece(id, if pe.markedForDeletion then DisallowGhost else AllowGhost);
      return true;
    }

    method MarkForEviction(id: PieceId, mode: EvictionMode)
      requires Valid() && id in pieces && pieces[id].jobs == []
      modifies this
      ensures Valid() && Abs() == Eviction.MarkForEviction(old(Abs()), id, mode) && Marks(old(Abs()), Abs(), id)
      ensures MarkFlags(old(Abs()), Abs(), id, mode)
    {
      hide MarkFlags, CacheInv, PieceOk, OkToEvict, Evicts, Marks, Retire;
      ghost var c := Abs();
      MarkLemma(c, id, mode);
      MarkIs(c, id, mode);
      EvictBlocksLemma(c, id);
      var evicted, _ := EvictPiece(id, mode);
      if !evicted {
        pieces := pieces[id := pieces[id].(markedForEviction := true, markedForDeletion := mode == DisallowGhost)];
      }
    }

    /** The listed blocks were written: they turn into read cache blocks. */
    method BlocksFlushed(id: PieceId, flushed: seq<nat>, now: int)
      requires Valid() && id in pieces && Editable(pieces[id], flushed, EndFlush) && now >= clock
      modifies this
      ensures Valid() && Abs() == Flushed(old(Abs()), id, flushed, now)
    {
      hide CacheInv, PieceOk, Put, MoveTo;
      FlushedKeeps(Abs(), id, flushed, now);
      ClearFlushed(id, flushed);
      UpdateCacheState(id, now);
      var _ := MaybeFreePiece(id);
    }

    /** The loop of blocks_flushed; the counters that count blocks move once, after it. */
    method ClearFlushed(id: PieceId, flushed: seq<nat>)
      requires Valid() && id in pieces && Editable(pieces[id], flushed, EndFlush)
      modifies this
      ensures Valid() && Abs() == EditBlocks(old(Abs()), id, flushed, EndFlush)
    {
      hide CacheInv, PieceOk, Put, CanEdit, EditAll;
      ghost var c := Abs();
      ghost var p := pieces[id];
      var pe := pieces[id];
      EditNone(c, id, EndFlush);
      assert EditAll(p, flushed[..0], EndFlush) == p by { assert flushed[..0] == []; EditAllNone(p, EndFlush); }
      PrefixEditable(p, flushed, 0, EndFlush);
      var i := 0;
      while i < |flushed|
        modifies `pinnedBlocks
        invariant 0 <= i <= |flushed| && |pe.blocks| == |p.blocks| && pe.numDirty == p.numDirty
        invariant Editable(p, flushed[..i], EndFlush)
        invariant pe.(numDirty := p.numDirty - i) == EditAll(p, flushed[..i], EndFlush)
        invariant pinnedBlocks == c.pinned + pe.pinned - p.pinned
      {
        FlushStep(p, flushed, i);
        var block := flushed[i];
        var b := pe.blocks[block].(pending := false, dirty := false);
        b := b.(refcount := b.refcount - 1);
        pe := pe.(blocks := pe.blocks[block := b], refcount := pe.refcount - 1);
        if b.refcount == 0 {
          pe := pe.(pinned := pe.pinned - 1);
          pinnedBlocks := pinnedBlocks - 1;
        }
        i := i + 1;
      }
      assert flushed[..|flushed|] == flushed;
      FlushTotals(c, id, flushed);
      writeCacheSize := writeCacheSize - |flushed|;
      readCacheSize := readCacheSize + |flushed|;
      pe := pe.(numDirty := pe.numDirty - |flushed|);
      pieces := pieces[id := pe];
    }

    /** Adds a dirty block and hangs its write job on the piece. `evict` is how many
        blocks the buffer pool asks to evict first; `mid` is the cache after that. */
    method AddDirtyBlock(id: PieceId, size: int, requester: nat, block: nat, buf: Buf, job: WriteJob, evict: int, now: int)
      returns (ghost mid: Cache)
      requires Valid() && size > 0 && now >= clock && buf.Buf? && Outside(Abs(), buf.addr)
      requires id in pieces ==> block < |pieces[id].blocks| && pieces[id].blocks[block].refcount == 0
      requires id !in pieces && blockSize > 0 ==> block < BlocksFor(size, blockSize)
      modifies this
      ensures |old(lru)| == NUM_LRUS && blockSize > 0 && (id in old(pieces) ==> 0 <= old(pieces)[id].cacheState < NUM_LRUS)
      ensures Valid() && CacheInv(mid)
      ensures Evicts(CacheOps.AllocatePiece(old(Abs()), id, size, requester, WRITE_LRU, now), mid)
      ensures AddDirtyPre(mid, id, block, buf, now) && Abs() == AddDirty(mid, id, block, buf, job, now)
    {
      hide CacheInv, PieceOk, Put, MoveTo, Outside, NewPiece, Evicts, CacheOps.AllocatePiece;
      ghost var c := Abs();
      CacheFacts(c);
      AllocateKeeps(c, id, size, requester, WRITE_LRU, now);
      AllocateDirty(c, id, size, requester, block, buf, now);
      AllocatePiece(id, size, requester, WRITE_LRU, now);
      ghost var d := Abs();
      EvictsRefl(d);
      if evict > 0 { var _ := TryEvictBlocks(evict, Some(id)); }
      mid := Abs();
      EvictsSpares(d, mid, id, buf.addr);
      Replace(id, block, buf);
      AddDirtyIs(mid, id, block, buf, job, now);
      HangJob(id, block, job, now);
    }

    /** Hangs the job on the piece and makes the piece the most recently used. */
    method HangJob(id: PieceId, block: nat, job: WriteJob, now: int)
      requires Valid() && id in pieces && pieces[id].cacheState == WRITE_LRU && pieces[id].numDirty > 0 && now >= clock
      modifies this
      ensures Valid() && HungPre(old(Abs()), id, now)
      ensures Abs() == MoveTo(UpdateState(Hung(old(Abs()), id, block, job), id, now), id, WRITE_LRU, now)
    {
      hide CacheInv, PieceOk, MoveTo;
      ghost var e := Abs();
      PieceFacts(e, id);
      HungLemma(e, id, block, job);
      var pe := pieces[id];
      pe := pe.(jobs := pe.jobs + [job]);
      if block == 0 && pe.hash.None? && !pe.hashingDone { pe := pe.(hash := Some(PartialHash(0, []))); }
      pieces := pieces[id := pe];
      assert Abs() == Hung(e, id, block, job);
      UpdateStateWrite(Hung(e, id, block, job), id, now);
      UpdateCacheState(id, now);
      BumpLru(id, now);
    }

    /** Frees the slot's left-over buffer, if any, and puts the new one there, dirty. */
    method Replace(id: PieceId, block: nat, buf: Buf)
      requires Valid() && id in pieces && block < |pieces[id].blocks| && pieces[id].blocks[block].refcount == 0
      requires pieces[id].cacheState == WRITE_LRU && buf.Buf? && Outside(Abs(), buf.addr)
      modifies this
      ensures Valid() && Abs() == Replaced(old(Abs()), id, block, buf)
    {
      hide CacheInv, PieceOk, Outside, EditBlocks, Editable, Fill;
      ghost var c := Abs();
      SlotFree(c, id, block);
      ReplacedLemma(c, id, block, buf);
      if pieces[id].blocks[block].buf.Buf? {
        SlotCanFree(c, id, block);
        OutsideFrees(c, id, block, buf.addr);
        FreeBlock(id, block);
      }
      ghost var d := Abs();
      SlotNowEmpty(c, id, block);
      FillKeeps(d, id, block, buf, true);
      FillCounters(d, id, block, buf, true);
      var pe := pieces[id];
      var b := pe.blocks[block].(buf := buf, dirty := true);
      pe := pe.(blocks := pe.blocks[block := b], numBlocks := pe.numBlocks + 1, numDirty := pe.numDirty + 1);
      writeCacheSize := writeCacheSize + 1;
      pieces := pieces[id := pe];
    }
  }

  /** The cache after the unreferenced blocks below `n` were freed. */
  ghost function EvictBelow(c: Cache, id: PieceId, n: nat): Cache
    requires CacheInv(c) && id in c.pieces && n <= |c.pieces[id].blocks|
  {
    PieceFacts(c, id);
    UnreferencedEditable(c.pieces[id], c.blockSize, n);
    EditBlocks(c, id, Unreferenced(c.pieces[id].blocks, n), Free)
  }

  lemma EvictNone(c: Cache, id: PieceId)
    requires CacheInv(c) && id in c.pieces
    ensures EvictBelow(c, id, 0) == c
    ensures EvictBelow(c, id, |c.pieces[id].blocks|) == EvictBlocks(c, id)
  {
    hide CacheInv;
    EditNone(c, id, Free);
  }

  lemma EvictStep(c: Cache, id: PieceId, n: nat)
    requires CacheInv(c) && id in c.pieces && n < |c.pieces[id].blocks|
    ensures var d := EvictBelow(c, id, n); var b := c.pieces[id].blocks[n];
      && id in d.pieces && |d.pieces[id].blocks| == |c.pieces[id].blocks| && d.pieces[id].blocks[n] == b
      && (if b.buf.Buf? && b.refcount == 0
          then CanEdit(Free, b) && Editable(d.pieces[id], [n], Free) && EditBlocks(d, id, [n], Free) == EvictBelow(c, id, n + 1)
          else EvictBelow(c, id, n + 1) == d)
    ensures var e := EvictBelow(c, id, n + 1); id in e.pieces && |e.pieces[id].blocks| == |c.pieces[id].blocks|
  {
    hide CacheInv, PieceOk, Tally, Addrs;
    var p := c.pieces[id];
    PieceFacts(c, id);
    var ks := Unreferenced(p.blocks, n);
    UnreferencedEditable(p, c.blockSize, n);
    UnreferencedEditable(p, c.blockSize, n + 1);
    EditAllLemma(p, ks, Free);
    EditAllLemma(p, Unreferenced(p.blocks, n + 1), Free);
    assert n !in ks;
    BlockFacts(p, c.blockSize, n);
    if p.blocks[n].buf.Buf? && p.blocks[n].refcount == 0 {
      EditSnoc(c, id, ks, n, Free);
    }
    hide EditAll, Editable;
  }

  /** The lists that are neither ghost lists nor `list` are as they were. */
  ghost predicate OtherLists(before: seq<seq<PieceId>>, after: seq<seq<PieceId>>, list: int) {
    && |before| == |after| == NUM_LRUS
    && forall i :: 0 <= i < NUM_LRUS && !IsGhost(i) && i != list ==> after[i] == before[i]
  }

  lemma RetireOk(p: Piece)
    requires OkToEvict(p, true)
    ensures OkToEvict(p.(hash := None, jobs := []), false)
  {}

  lemma ErasedOnly(c: Cache, id: PieceId)
    requires CacheInv(c) && id in c.pieces
    ensures |c.lru| == NUM_LRUS && 0 <= c.pieces[id].cacheState < NUM_LRUS
    ensures Erase(c, id).pieces == c.pieces - {id} && |Erase(c, id).lru| == NUM_LRUS
  {
    hide CacheInv, PieceOk, Without;
    PieceFacts(c, id);
  }

  /** Once a piece holds no buffer, no later block of it held one to free. */
  lemma NoneLeft(c: Cache, id: PieceId, n: nat)
    requires CacheInv(c) && id in c.pieces && n <= |c.pieces[id].blocks|
    requires id in EvictBelow(c, id, n).pieces && EvictBelow(c, id, n).pieces[id].numBlocks == 0
    ensures EvictBelow(c, id, n) == EvictBlocks(c, id)
  {
    hide CacheInv, Tally;
    var p := c.pieces[id];
    var ks := Unreferenced(p.blocks, n);
    PieceFacts(c, id);
    UnreferencedEditable(p, c.blockSize, n);
    EditAllLemma(p, ks, Free);
    EditAllOk(p, c.blockSize, ks, Free);
    NoBlocksPiece(EditAll(p, ks, Free), c.blockSize);
    hide EditAll;
    forall k | n <= k < |p.blocks| ensures p.blocks[k].buf.Null? {
      assert k !in ks;
      assert EditAll(p, ks, Free).blocks[k] == p.blocks[k];
    }
    UnreferencedStops(p.blocks, n, |p.blocks|);
  }

  lemma {:induction false} UnreferencedStops(bs: seq<Block>, n: nat, m: nat)
    requires n <= m <= |bs| && forall k :: n <= k < |bs| ==> bs[k].buf.Null?
    ensures Unreferenced(bs, m) == Unreferenced(bs, n)
    decreases m
  {
    if n < m { UnreferencedStops(bs, n, m - 1); }
  }

  lemma MoveToGhostEmpty(c: Cache, id: PieceId)
    requires CacheInv(c) && id in c.pieces && c.pieces[id].numBlocks == 0 && OkToEvict(c.pieces[id], false)
    ensures var d := Eviction.MoveToGhost(c, id);
      id in d.pieces ==> forall k :: 0 <= k < |d.pieces[id].blocks| ==> d.pieces[id].blocks[k] == EMPTY
  {
    hide CacheInv, PieceOk, OkToEvict, MoveToGhost;
    PieceFacts(c, id);
    NoBlocksPiece(c.pieces[id], c.blockSize);
    MoveToGhostLemma(c, id);
  }

  lemma MoveToGhostLists(c: Cache, id: PieceId)
    requires CacheInv(c) && id in c.pieces && |c.lru| == NUM_LRUS
    ensures var d := Eviction.MoveToGhost(c, id);
      d.readSize == c.readSize && OtherLists(c.lru, d.lru, c.pieces[id].cacheState)
  {
    hide CacheInv, PieceOk, OkToEvict, Without, TrimGhosts, Evicts;
    PieceFacts(c, id);
    if IsGhost(c.pieces[id].cacheState + 1) {
      TrimRead(c, c.pieces[id].cacheState + 1);
      TrimGhostsLemma(c, c.pieces[id].cacheState + 1);
    }
  }

  lemma {:induction false} TrimRead(c: Cache, list: int)
    requires |c.lru| == NUM_LRUS && 0 <= list < NUM_LRUS
    ensures TrimGhosts(c, list).readSize == c.readSize && |TrimGhosts(c, list).lru| == NUM_LRUS
    ensures forall i :: 0 <= i < NUM_LRUS && i != list ==> TrimGhosts(c, list).lru[i] == c.lru[i]
    decreases |c.lru[list]|
  {
    if !(|c.lru[list]| < c.ghostSize || !FrontOk(c, list)) {
      WithoutShorter(c.lru[list], c.lru[list][0]);
      TrimRead(Erase(c, c.lru[list][0]), list);
    }
  }

  lemma ListFacts(c: Cache, list: int)
    requires CacheInv(c) && |c.lru| == NUM_LRUS && 0 <= list < NUM_LRUS
    ensures NoDup(c.lru[list])
    ensures forall j :: 0 <= j < |c.lru[list]| ==> c.lru[list][j] in c.pieces && c.pieces[c.lru[list][j]].cacheState == list
    ensures forall x :: x in c.lru[list] ==> x in c.pieces && c.pieces[x].cacheState == list
  {
    hide CountersOk, SortedByExpire, PiecesOk, BufsOk, NoDup;
    forall j | 0 <= j < |c.lru[list]| ensures c.lru[list][j] in c.pieces && c.pieces[c.lru[list][j]].cacheState == list {
      assert c.lru[list][j] in c.lru[list];
    }
  }

  lemma WalkStart(c: Cache, ids: seq<PieceId>, hashedOnly: bool, ignore: Option<PieceId>)
    ensures Evicts(c, c) && InOrder(c, c, ids, hashedOnly, ignore) && AllSettled(c, ids[..0], hashedOnly, ignore)
  {
    EvictsRefl(c);
  }

  /** After the piece at `i` was treated: those before it were settled already, those
      after it still have everything. */
  lemma WalkStep(c: Cache, d: Cache, e: Cache, ids: seq<PieceId>, i: nat, hashedOnly: bool, ignore: Option<PieceId>)
    requires i < |ids| && NoDup(ids) && Evicts(d, e)
    requires InOrder(c, d, ids, hashedOnly, ignore) && AllSettled(d, ids[..i], hashedOnly, ignore)
    requires forall j :: i < j < |ids| ==> ids[j] in e.pieces && ids[j] in c.pieces && e.pieces[ids[j]] == c.pieces[ids[j]]
    ensures InOrder(c, e, ids, hashedOnly, ignore)
  {
    SettledMonotone(d, e, ids[..i], hashedOnly, ignore);
    forall a, b | 0 <= a < b < |ids| && !KeptFrom(c, e, ids[b], 0) ensures Settled(e, ids[a], hashedOnly, ignore) {
      assert b <= i;
      assert ids[a] == ids[..i][a];
      assert ids[a] in ids[..i];
    }
  }

  lemma WalkSettled(d: Cache, e: Cache, ids: seq<PieceId>, i: nat, hashedOnly: bool, ignore: Option<PieceId>)
    requires i < |ids| && Evicts(d, e) && AllSettled(d, ids[..i], hashedOnly, ignore) && Settled(e, ids[i], hashedOnly, None)
    ensures AllSettled(e, ids[..i + 1], hashedOnly, ignore)
  {
    SettledMonotone(d, e, ids[..i], hashedOnly, ignore);
    assert ids[..i + 1] == ids[..i] + [ids[i]];
    assert Settled(e, ids[i], hashedOnly, ignore);
    hide Settled;
  }

  lemma WalkSpare(d: Cache, ids: seq<PieceId>, i: nat, hashedOnly: bool, ignore: Option<PieceId>)
    requires i < |ids| && AllSettled(d, ids[..i], hashedOnly, ignore) && ignore == Some(ids[i])
    ensures AllSettled(d, ids[..i + 1], hashedOnly, ignore)
  {
    assert ids[..i + 1] == ids[..i] + [ids[i]];
    assert Settled(d, ids[i], hashedOnly, ignore);
    hide Settled;
  }

  /** A piece that lost buffers and is left without any stays in its list only if it is in
      use: otherwise it is erased or becomes a ghost. */
  ghost predicate NoHusks(c: Cache, d: Cache) {
    forall x :: x in d.pieces && !IsGhost(d.pieces[x].cacheState) && OkToEvict(d.pieces[x], false)
                && (forall k :: 0 <= k < |d.pieces[x].blocks| ==> d.pieces[x].blocks[k].buf.Null?) ==>
      x in c.pieces && c.pieces[x] == d.pieces[x]
  }

  lemma DemotedHusks(c: Cache, d: Cache, id: PieceId)
    requires Evicts(c, d) && (id in d.pieces ==> IsGhost(d.pieces[id].cacheState))
    requires forall x :: x in c.pieces && x != id && !IsGhost(c.pieces[x].cacheState) ==> x in d.pieces && d.pieces[x] == c.pieces[x]
    ensures NoHusks(c, d)
  {
    hide OkToEvict, Outside, Droppable;
    forall x | x in d.pieces && !IsGhost(d.pieces[x].cacheState) ensures x in c.pieces && c.pieces[x] == d.pieces[x] {
      assert Shrunk(c.pieces[x], d.pieces[x]);
    }
  }

  lemma InUseHusks(c: Cache, d: Cache, id: PieceId)
    requires CacheInv(d) && id in d.pieces && d.pieces == c.pieces[id := d.pieces[id]]
    requires !(OkToEvict(d.pieces[id], false) && d.pieces[id].numBlocks == 0)
    ensures NoHusks(c, d)
  {
    hide CacheInv, PieceOk, OkToEvict;
    PieceFacts(d, id);
    var p := d.pieces[id];
    if forall k :: 0 <= k < |p.blocks| ==> p.blocks[k].buf.Null? {
      NullEmpty(p, d.blockSize);
      EmptyPiece(p, d.blockSize);
    }
  }

  lemma NullEmpty(p: Piece, blockSize: int)
    requires PieceOk(p, blockSize) && forall k :: 0 <= k < |p.blocks| ==> p.blocks[k].buf.Null?
    ensures forall k :: 0 <= k < |p.blocks| ==> p.blocks[k] == EMPTY
  {
    hide Tally;
  }

  /** A piece that move_to_ghost leaves in the cache is a ghost. */
  lemma MoveToGhostState(c: Cache, id: PieceId)
    requires CacheInv(c) && id in c.pieces && c.pieces[id].cacheState != WRITE_LRU
    ensures var d := Eviction.MoveToGhost(c, id); id in d.pieces && !IsGhost(c.pieces[id].cacheState) ==> IsGhost(d.pieces[id].cacheState)
  {
    hide CacheInv, PieceOk, OkToEvict, TrimGhosts, Relink, Without;
    PieceFacts(c, id);
    var s := c.pieces[id].cacheState;
    if s == READ_LRU1 || s == READ_LRU2 { TrimGhostsLemma(c, s + 1); }
  }

  lemma SameHusks(c: Cache)
    ensures NoHusks(c, c)
  {}

  lemma HusksTrans(c: Cache, d: Cache, e: Cache)
    requires NoHusks(c, d) && NoHusks(d, e)
    ensures NoHusks(c, e)
  {}

  lemma NothingChanged(c: Cache, ids: seq<PieceId>)
    ensures OthersKept(c, c, ids)
  {}

  /** No block past the hash cursor of its piece was freed. */
  ghost predicate KeptPastHash(c: Cache, d: Cache, ids: seq<PieceId>) {
    forall x :: x in ids && x in c.pieces && c.blockSize > 0 ==> KeptFrom(c, d, x, HashedEnd(c.pieces[x], c.blockSize))
  }

  lemma NothingPastHash(c: Cache, ids: seq<PieceId>)
    ensures KeptPastHash(c, c, ids)
  {}

  /** A piece that is not a ghost kept its blocks, or is empty. */
  lemma GhostsEmpty(c: Cache, id: PieceId)
    requires CacheInv(c) && id in c.pieces && IsGhost(c.pieces[id].cacheState)
    ensures forall k :: 0 <= k < |c.pieces[id].blocks| ==> c.pieces[id].blocks[k] == EMPTY
  {
    hide CacheInv, PieceOk;
    PieceFacts(c, id);
    NoBlocksPiece(c.pieces[id], c.blockSize);
  }

  lemma WalkKeeps(c: Cache, d: Cache, e: Cache, ids: seq<PieceId>, i: nat)
    requires i < |ids| && KeptPastHash(c, d, ids) && c.blockSize > 0 && CacheInv(d)
    requires ids[i] in c.pieces && ids[i] in d.pieces && c.pieces[ids[i]] == d.pieces[ids[i]]
    requires KeptFrom(d, e, ids[i], HashedEnd(d.pieces[ids[i]], c.blockSize))
    requires forall x :: x in d.pieces && x != ids[i] && !IsGhost(d.pieces[x].cacheState) ==> x in e.pieces && e.pieces[x] == d.pieces[x]
    ensures KeptPastHash(c, e, ids)
  {
    hide CacheInv;
    forall x | x in ids && x in c.pieces ensures KeptFrom(c, e, x, HashedEnd(c.pieces[x], c.blockSize)) {
      if x != ids[i] {
        if x in d.pieces && IsGhost(d.pieces[x].cacheState) { GhostsEmpty(d, x); }
        KeptStays(c, d, e, x, HashedEnd(c.pieces[x], c.blockSize));
      }
    }
    hide KeptFrom;
  }

  /** All of these pieces are in lists that may be walked, none of them in `list`. */
  ghost predicate FromOtherLists(c: Cache, ids: seq<PieceId>, list: int) {
    forall x :: x in ids ==> x in c.pieces && !IsGhost(c.pieces[x].cacheState) && c.pieces[x].cacheState != list
  }

  /** Walking list `list` takes nothing from pieces of other lists. */
  lemma KeptAcross(c: Cache, d: Cache, e: Cache, x: PieceId, list: int)
    requires CacheInv(c) && CacheInv(d) && |c.lru| == NUM_LRUS && 0 <= list < NUM_LRUS
    requires x in c.pieces && c.pieces[x].cacheState != list
    requires KeptFrom(c, d, x, 0) && OthersKept(d, e, c.lru[list])
    ensures KeptFrom(c, e, x, 0)
  {
    hide CacheInv, KeptFrom;
    ListFacts(c, list);
    if x in d.pieces && IsGhost(d.pieces[x].cacheState) { GhostsEmpty(d, x); }
    KeptStays(c, d, e, x, 0);
  }

  lemma StageStep(c: Cache, d: Cache, e: Cache, done: seq<PieceId>, ids: seq<PieceId>, list: int, ignore: Option<PieceId>)
    requires CacheInv(c) && CacheInv(d) && Evicts(d, e) && |c.lru| == NUM_LRUS && Allocatable(list)
    requires ids == c.lru[list] && FromOtherLists(c, done, list)
    requires InOrder(c, d, done, false, ignore) && AllSettled(d, done, false, ignore)
    requires InOrder(d, e, ids, false, ignore) && OthersKept(d, e, ids) && OthersKept(c, d, done)
    ensures InOrder(c, e, done + ids, false, ignore) && OthersKept(c, e, done + ids)
  {
    hide CacheInv, Settled, KeptFrom, InOrder, Evicts, AllSettled;
    ListFacts(c, list);
    forall x | x in done && KeptFrom(c, d, x, 0) ensures KeptFrom(c, e, x, 0) { KeptAcross(c, d, e, x, list); }
    OrderMonotone(c, d, e, done, false, ignore);
    SettledMonotone(d, e, done, false, ignore);
    forall x | x in ids ensures KeptFrom(c, d, x, 0) && x in c.pieces && x in d.pieces && c.pieces[x] == d.pieces[x] {
      SameKept(c, d, x);
    }
    OrderExtend(c, d, e, done, ids, ignore);
  }

  lemma SameKept(c: Cache, d: Cache, x: PieceId)
    requires x in c.pieces ==> x in d.pieces && d.pieces[x] == c.pieces[x]
    ensures KeptFrom(c, d, x, 0)
  {}

  lemma SettledAppend(c: Cache, done: seq<PieceId>, ids: seq<PieceId>, ignore: Option<PieceId>)
    requires AllSettled(c, done, false, ignore) && AllSettled(c, ids, false, ignore)
    ensures AllSettled(c, done + ids, false, ignore)
  {
    hide Settled;
  }

  /** Lists that were not reached kept everything. */
  lemma StagePrefix(c: Cache, d: Cache, done: seq<PieceId>, rest: seq<PieceId>, ignore: Option<PieceId>)
    requires InOrder(c, d, done, false, ignore) && OthersKept(c, d, done)
    requires forall x :: x in rest ==> x in c.pieces && !IsGhost(c.pieces[x].cacheState) && x !in done
    ensures InOrder(c, d, done + rest, false, ignore) && OthersKept(c, d, done + rest)
  {
    hide Settled, KeptFrom;
    var all := done + rest;
    forall a, b | 0 <= a < b < |all| && !KeptFrom(c, d, all[b], 0) ensures Settled(d, all[a], false, ignore) {
      if b >= |done| {
        assert all[b] in rest;
        SameKept(c, d, all[b]);
        assert false;
      }
      assert all[a] == done[a] && all[b] == done[b];
    }
  }

  lemma WriteUntouched(c: Cache, d: Cache)
    requires CacheInv(c) && |c.lru| == NUM_LRUS && OthersKept(c, d, EvictOrder(c))
    ensures KeptPastHash(c, d, c.lru[WRITE_LRU])
    ensures forall x :: x in c.lru[WRITE_LRU] ==> x in c.pieces && x in d.pieces && d.pieces[x] == c.pieces[x]
  {
    hide CacheInv;
    ListFacts(c, WRITE_LRU);
    ListFacts(c, VOLATILE_LRU);
    ListFacts(c, READ_LRU1);
    ListFacts(c, READ_LRU2);
  }

  /** A piece of list `second` lost a buffer only if nothing is left to take from `first`. */
  ghost predicate GivesFirst(c: Cache, d: Cache, first: int, second: int, ignore: Option<PieceId>)
    requires |c.lru| == NUM_LRUS && 0 <= first < NUM_LRUS && 0 <= second < NUM_LRUS
  {
    (forall x :: x in c.lru[second] ==> KeptFrom(c, d, x, 0)) || AllSettled(d, c.lru[first], false, ignore)
  }

  lemma OrderGives(c: Cache, d: Cache, ignore: Option<PieceId>)
    requires |c.lru| == NUM_LRUS && InOrder(c, d, EvictOrder(c), false, ignore)
    ensures var (first, second) := EvictLists(c.lastOp, |c.lru[READ_LRU1]|, |c.lru[READ_LRU2]|); GivesFirst(c, d, first, second, ignore)
  {
    hide KeptFrom, Settled;
    var (first, second) := EvictLists(c.lastOp, |c.lru[READ_LRU1]|, |c.lru[READ_LRU2]|);
    var v, n := |c.lru[VOLATILE_LRU]|, |c.lru[first]|;
    var order := EvictOrder(c);
    if x :| x in c.lru[second] && !KeptFrom(c, d, x, 0) {
      var b :| 0 <= b < |c.lru[second]| && c.lru[second][b] == x;
      assert order[v + n + b] == x;
      forall y | y in c.lru[first] ensures Settled(d, y, false, ignore) {
        var a :| 0 <= a < n && c.lru[first][a] == y;
        assert order[v + a] == y;
      }
    }
  }

  lemma OrderFacts(c: Cache)
    requires CacheInv(c) && |c.lru| == NUM_LRUS
    ensures FromOtherLists(c, EvictOrder(c), WRITE_LRU)
  {
    hide CacheInv;
    ListFacts(c, VOLATILE_LRU);
    ListFacts(c, READ_LRU1);
    ListFacts(c, READ_LRU2);
  }

  /** The write list stage leaves the read lists as the first stage left them. */
  lemma ReadOrderStays(c: Cache, d: Cache, e: Cache, ignore: Option<PieceId>)
    requires CacheInv(c) && CacheInv(d) && |c.lru| == NUM_LRUS && Evicts(d, e)
    requires InOrder(c, d, EvictOrder(c), false, ignore) && OthersKept(d, e, c.lru[WRITE_LRU])
    ensures InOrder(c, e, EvictOrder(c), false, ignore)
  {
    hide CacheInv, InOrder, KeptFrom, Evicts, OthersKept;
    OrderFacts(c);
    forall x | x in EvictOrder(c) && KeptFrom(c, d, x, 0) ensures KeptFrom(c, e, x, 0) { KeptAcross(c, d, e, x, WRITE_LRU); }
    OrderMonotone(c, d, e, EvictOrder(c), false, ignore);
  }

  lemma PastHashSame(c: Cache, d: Cache, e: Cache, ids: seq<PieceId>)
    requires c.blockSize == d.blockSize && forall x :: x in ids ==> x in c.pieces && x in d.pieces && d.pieces[x] == c.pieces[x]
    ensures KeptPastHash(d, e, ids) ==> KeptPastHash(c, e, ids)
  {}

  lemma OrderParts(c: Cache, end: nat)
    requires CacheInv(c) && |c.lru| == NUM_LRUS && end < 3
    ensures var (first, second) := EvictLists(c.lastOp, |c.lru[READ_LRU1]|, |c.lru[READ_LRU2]|);
      var done := if end == 0 then [] else if end == 1 then c.lru[VOLATILE_LRU] else c.lru[VOLATILE_LRU] + c.lru[first];
      var rest := if end == 2 then c.lru[second] else if end == 1 then c.lru[first] + c.lru[second] else EvictOrder(c);
      && FromOtherLists(c, done, [VOLATILE_LRU, first, second][end])
      && (forall x :: x in rest ==> x in c.pieces && !IsGhost(c.pieces[x].cacheState) && x !in done)
  {
    hide CacheInv;
    ListFacts(c, VOLATILE_LRU);
    ListFacts(c, READ_LRU1);
    ListFacts(c, READ_LRU2);
  }

  /** A piece that left the write list left the cache. */
  lemma WriteSettled(c: Cache, d: Cache, e: Cache, ignore: Option<PieceId>)
    requires CacheInv(c) && CacheInv(d) && |c.lru| == NUM_LRUS && |d.lru| == NUM_LRUS && Evicts(c, d) && Evicts(d, e)
    requires AllSettled(e, d.lru[WRITE_LRU], false, ignore)
    ensures AllSettled(e, c.lru[WRITE_LRU], false, ignore)
  {
    hide CacheInv;
    ListFacts(c, WRITE_LRU);
    ListComplete(d);
    hide Settled;
    forall x | x in c.lru[WRITE_LRU] ensures Settled(e, x, false, ignore) {
      if x in d.pieces {
        assert Shrunk(c.pieces[x], d.pieces[x]);
      } else {
        GoneSettled(e, x, ignore);
      }
    }
  }

  lemma GoneSettled(c: Cache, x: PieceId, ignore: Option<PieceId>)
    requires x !in c.pieces
    ensures Settled(c, x, false, ignore)
  {}

  lemma SecondPass(c: Cache, d: Cache, e: Cache)
    requires CacheInv(c) && CacheInv(d) && |c.lru| == NUM_LRUS && |d.lru| == NUM_LRUS && Evicts(c, d)
    requires OthersKept(c, d, c.lru[WRITE_LRU]) && OthersKept(d, e, d.lru[WRITE_LRU])
    ensures OthersKept(c, e, c.lru[WRITE_LRU])
  {
    hide CacheInv;
    ListFacts(c, WRITE_LRU);
    ListFacts(d, WRITE_LRU);
    ListComplete(c);
  }

  lemma ListComplete(c: Cache)
    requires CacheInv(c) && |c.lru| == NUM_LRUS
    ensures forall x :: x in c.pieces && c.pieces[x].cacheState == WRITE_LRU ==> x in c.lru[WRITE_LRU]
  {
    hide CountersOk, SortedByExpire, PiecesOk, BufsOk, NoDup;
  }

  lemma EvictsKeys(c: Cache, d: Cache)
    requires Evicts(c, d)
    ensures d.pieces.Keys <= c.pieces.Keys
  {}

  // ------------------------------------------------------------ flushed blocks

  ghost function Flushed(c: Cache, id: PieceId, ks: seq<nat>, now: int): Cache
    requires CacheInv(c) && id in c.pieces && Editable(c.pieces[id], ks, EndFlush) && now >= c.clock
  {
    FlushedKeeps(c, id, ks, now);
    MaybeFree(UpdateState(EditBlocks(c, id, ks, EndFlush), id, now), id)
  }

  lemma FlushedKeeps(c: Cache, id: PieceId, ks: seq<nat>, now: int)
    requires CacheInv(c) && id in c.pieces && Editable(c.pieces[id], ks, EndFlush) && now >= c.clock
    ensures var d := EditBlocks(c, id, ks, EndFlush);
      && CacheInv(d) && id in d.pieces && |d.lru| == NUM_LRUS && 0 <= d.pieces[id].cacheState < NUM_LRUS && d.clock == c.clock
      && CacheInv(UpdateState(d, id, now)) && id in UpdateState(d, id, now).pieces
  {
    hide CacheInv, PieceOk, EditAll, Editable, Tally, Addrs;
    EditKeeps(c, id, ks, EndFlush);
    var d := EditBlocks(c, id, ks, EndFlush);
    PieceFacts(d, id);
    UpdateStateKeeps(d, id, now);
  }

  lemma PrefixEditable(p: Piece, ks: seq<nat>, i: nat, e: Edit)
    requires Editable(p, ks, e) && i <= |ks|
    ensures Editable(p, ks[..i], e)
  {}

  lemma EditAllNone(p: Piece, e: Edit)
    ensures EditAll(p, [], e) == p
  {}

  lemma FlushStep(p: Piece, ks: seq<nat>, i: nat)
    requires Editable(p, ks, EndFlush) && i < |ks|
    ensures Editable(p, ks[..i], EndFlush) && Editable(p, ks[..i + 1], EndFlush)
    ensures var q := EditAll(p, ks[..i], EndFlush);
      && ks[i] < |p.blocks| && |q.blocks| == |p.blocks| && q.blocks[ks[i]] == p.blocks[ks[i]]
      && p.blocks[ks[i]].buf.Buf? && p.blocks[ks[i]].dirty && p.blocks[ks[i]].refcount > 0
      && EditAll(p, ks[..i + 1], EndFlush) == WithBlock(q, ks[i], Edited(EndFlush, p.blocks[ks[i]]))
  {
    PrefixEditable(p, ks, i, EndFlush);
    PrefixEditable(p, ks, i + 1, EndFlush);
    assert ks[..i + 1][..i] == ks[..i];
    assert ks[i] !in ks[..i];
    EditAllLemma(p, ks[..i], EndFlush);
    hide WithBlock, Edited;
  }

  lemma FlushTotals(c: Cache, id: PieceId, ks: seq<nat>)
    requires CacheInv(c) && id in c.pieces && Editable(c.pieces[id], ks, EndFlush)
    ensures var q := EditAll(c.pieces[id], ks, EndFlush); var p := c.pieces[id];
      var d := EditBlocks(c, id, ks, EndFlush);
      && CacheInv(d)
      && d == c.(pieces := c.pieces[id := q], readSize := c.readSize + |ks|, writeSize := c.writeSize - |ks|,
                 pinned := c.pinned + q.pinned - p.pinned)
  {
    hide CacheInv, PieceOk, Tally, Addrs, Put;
    var p := c.pieces[id];
    var q := EditAll(p, ks, EndFlush);
    EditKeeps(c, id, ks, EndFlush);
    PieceFacts(c, id);
    EditAllOk(p, c.blockSize, ks, EndFlush);
    EditAllLemma(p, ks, EndFlush);
    hide EditAll, Editable;
    PutEffect(c, id, q);
    SameAddrs(p.blocks, q.blocks);
  }

  lemma SameAddrs(bs: seq<Block>, ds: seq<Block>)
    requires |bs| == |ds| && forall k :: 0 <= k < |bs| ==> ds[k].buf == bs[k].buf
    ensures Addrs(bs) == Addrs(ds)
  {
    AddrsShrink(bs, ds);
    AddrsShrink(ds, bs);
  }

  // ------------------------------------------------------------- dirty blocks

  ghost predicate AddDirtyPre(c: Cache, id: PieceId, block: nat, buf: Buf, now: int) {
    && CacheInv(c) && id in c.pieces && block < |c.pieces[id].blocks| && now >= c.clock
    && c.pieces[id].cacheState == WRITE_LRU && c.pieces[id].blocks[block].refcount == 0
    && buf.Buf? && Outside(c, buf.addr)
  }

  ghost predicate HungPre(c: Cache, id: PieceId, now: int) {
    && |c.lru| == NUM_LRUS && id in c.pieces && c.pieces[id].cacheState == WRITE_LRU && c.pieces[id].numDirty > 0
  }

  /** AddDirty, with its two halves apart. */
  lemma AddDirtyIs(c: Cache, id: PieceId, block: nat, buf: Buf, job: WriteJob, now: int)
    requires AddDirtyPre(c, id, block, buf, now)
    ensures var d := Replaced(c, id, block, buf);
      && CacheInv(d) && HungPre(d, id, now) && d.clock == c.clock
      && AddDirty(c, id, block, buf, job, now) == MoveTo(UpdateState(Hung(d, id, block, job), id, now), id, WRITE_LRU, now)
  {
    hide CacheInv, PieceOk, MoveTo, Outside, Replaced, UpdateState;
    ReplacedLemma(c, id, block, buf);
    var d := Replaced(c, id, block, buf);
    CacheFacts(d);
    PieceFacts(d, id);
    HungLemma(d, id, block, job);
    DirtyCounted(d, id, block);
  }

  lemma DirtyCounted(c: Cache, id: PieceId, k: nat)
    requires CacheInv(c) && id in c.pieces && k < |c.pieces[id].blocks| && c.pieces[id].blocks[k].dirty
    ensures c.pieces[id].numDirty > 0
  {
    hide CacheInv;
    PieceFacts(c, id);
    TallyBounds(c.pieces[id].blocks);
    TallyZero(c.pieces[id].blocks, k);
    hide Tally;
  }

  lemma AllocateDirty(c: Cache, id: PieceId, size: int, requester: nat, block: nat, buf: Buf, now: int)
    requires CacheInv(c) && size > 0 && now >= c.clock && buf.Buf? && Outside(c, buf.addr)
    requires id in c.pieces ==> block < |c.pieces[id].blocks| && c.pieces[id].blocks[block].refcount == 0
    requires id !in c.pieces && c.blockSize > 0 ==> block < BlocksFor(size, c.blockSize)
    requires |c.lru| == NUM_LRUS && c.blockSize > 0 && (id in c.pieces ==> 0 <= c.pieces[id].cacheState < NUM_LRUS)
    ensures AddDirtyPre(CacheOps.AllocatePiece(c, id, size, requester, WRITE_LRU, now), id, block, buf, now)
  {
    hide CacheInv, Outside, NewPiece, PieceOk, CacheOps.AllocatePiece;
    var d := CacheOps.AllocatePiece(c, id, size, requester, WRITE_LRU, now);
    AllocateKeeps(c, id, size, requester, WRITE_LRU, now);
    AllocateEffect(c, id, size, requester, WRITE_LRU, now);
    AllocatePool(c, id, size, requester, WRITE_LRU, now);
    PieceFacts(d, id);
    NewPieceEmpty(size, c.blockSize, requester, WRITE_LRU, now);
    if id !in c.pieces { AllocatedEmpty(d.pieces[id].blocks); }
    StillOutside(c, d, id, buf.addr);
  }

  lemma AllocatePool(c: Cache, id: PieceId, size: int, requester: nat, state: int, now: int)
    requires |c.lru| == NUM_LRUS && Allocatable(state) && size > 0 && c.blockSize > 0
    requires id in c.pieces ==> 0 <= c.pieces[id].cacheState < NUM_LRUS
    ensures var d := CacheOps.AllocatePiece(c, id, size, requester, state, now);
      d.pool == c.pool && (d.clock == c.clock || d.clock == now)
  {
    hide Relink;
  }

  lemma StillOutside(c: Cache, d: Cache, id: PieceId, addr: nat)
    requires Outside(c, addr) && d.pool == c.pool && id in d.pieces && d.pieces == c.pieces[id := d.pieces[id]]
    requires if id in c.pieces then d.pieces[id].blocks == c.pieces[id].blocks else Addrs(d.pieces[id].blocks) == {}
    ensures Outside(d, addr)
  {
    hide Addrs;
  }

  lemma AllocatedEmpty(bs: seq<Block>)
    requires forall k :: 0 <= k < |bs| ==> bs[k] == EMPTY
    ensures Addrs(bs) == {}
  {}

  lemma NewPieceEmpty(size: int, blockSize: int, requester: nat, state: int, now: int)
    requires size > 0 && blockSize > 0
    ensures var bs := NewPiece(size, blockSize, requester, state, now).blocks;
      |bs| == BlocksFor(size, blockSize) && forall k :: 0 <= k < |bs| ==> bs[k] == EMPTY
  {}

  lemma EvictsSpares(c: Cache, d: Cache, id: PieceId, addr: nat)
    requires Evicts(c, d) && Outside(c, addr)
    ensures Outside(d, addr) && d.clock == c.clock
  {
    hide Outside, Shrunk, Droppable;
  }

  lemma UpdateStateWrite(c: Cache, id: PieceId, now: int)
    requires |c.lru| == NUM_LRUS && id in c.pieces && c.pieces[id].cacheState == WRITE_LRU && c.pieces[id].numDirty > 0
    ensures UpdateState(c, id, now) == c
  {}

  lemma SlotCanFree(c: Cache, id: PieceId, block: nat)
    requires CacheInv(c) && id in c.pieces && block < |c.pieces[id].blocks|
    requires c.pieces[id].blocks[block].refcount == 0 && c.pieces[id].blocks[block].buf.Buf?
    ensures CanEdit(Free, c.pieces[id].blocks[block])
  {
    hide CacheInv, Tally;
    PieceFacts(c, id);
    BlockFacts(c.pieces[id], c.blockSize, block);
  }

  lemma SlotNowEmpty(c: Cache, id: PieceId, block: nat)
    requires CacheInv(c) && id in c.pieces && block < |c.pieces[id].blocks| && c.pieces[id].blocks[block].refcount == 0
    ensures c.pieces[id].blocks[block].buf.Null? ==> c.pieces[id].blocks[block] == EMPTY
    ensures c.pieces[id].blocks[block].buf.Buf? ==> Editable(c.pieces[id], [block], Free)
    ensures c.pieces[id].blocks[block].buf.Buf? ==>
      var d := EditBlocks(c, id, [block], Free);
      id in d.pieces && |d.pieces[id].blocks| == |c.pieces[id].blocks| && d.pieces[id].blocks[block] == EMPTY
      && d.pieces[id].cacheState == c.pieces[id].cacheState
  {
    hide CacheInv, PieceOk, Tally, Addrs;
    SlotFree(c, id, block);
    if c.pieces[id].blocks[block].buf.Buf? { EditAllOne(c.pieces[id], block, Free); }
    hide Editable, EditAll;
  }

  lemma FillCounters(c: Cache, id: PieceId, k: nat, buf: Buf, dirty: bool)
    requires CacheInv(c) && id in c.pieces && k < |c.pieces[id].blocks| && c.pieces[id].blocks[k] == EMPTY
    requires buf.Buf? && Outside(c, buf.addr)
    requires !IsGhost(c.pieces[id].cacheState) && (dirty ==> c.pieces[id].cacheState == WRITE_LRU)
    ensures var d := Fill(c, id, k, buf, dirty); var p := c.pieces[id];
      d == c.(pieces := c.pieces[id := p.(blocks := p.blocks[k := Block(buf, 0, dirty, false)], numBlocks := p.numBlocks + 1,
                                          numDirty := p.numDirty + (if dirty then 1 else 0))],
              readSize := c.readSize + (if dirty then 0 else 1), writeSize := c.writeSize + (if dirty then 1 else 0))
  {
    hide CacheInv, PieceOk, Tally, Addrs, Put, Outside;
    var p := c.pieces[id];
    var b := Block(buf, 0, dirty, false);
    PieceFacts(c, id);
    WithBlockOk(p, c.blockSize, k, b);
    PutEffect(c, id, WithBlock(p, k, b));
    assert buf.addr !in Addrs(p.blocks) && buf.addr in c.pool by { OutsideFacts(c, id, buf.addr); }
    AddrsFill(p.blocks, k, b);
  }

  lemma OutsideFacts(c: Cache, id: PieceId, addr: nat)
    requires Outside(c, addr) && id in c.pieces
    ensures addr !in Addrs(c.pieces[id].blocks) && addr in c.pool
  {}
}
