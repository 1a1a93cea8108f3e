/** What each operation of the block cache does to the whole cache, and that each
    keeps the invariant. */
module CacheOps {
  import opened CacheModel
  import opened CacheSpec
  import opened BlockEdits

  // ------------------------------------------------------------- block changes

  /** Edits the listed blocks of a piece. */
  ghost function EditBlocks(c: Cache, id: PieceId, ks: seq<nat>, e: Edit): Cache
    requires id in c.pieces && Editable(c.pieces[id], ks, e)
  {
    Put(c, id, EditAll(c.pieces[id], ks, e))
  }

  lemma AddrsShrink(bs: seq<Block>, ds: seq<Block>)
    requires |bs| == |ds|
    requires forall k :: 0 <= k < |bs| ==> ds[k].buf == bs[k].buf || ds[k].buf.Null?
    ensures Addrs(ds) <= Addrs(bs) && (DistinctBufs(bs) ==> DistinctBufs(ds))
  {}

  lemma EditKeeps(c: Cache, id: PieceId, ks: seq<nat>, e: Edit)
    requires CacheInv(c) && id in c.pieces && Editable(c.pieces[id], ks, e)
    ensures CacheInv(EditBlocks(c, id, ks, e))
  {
    var p := c.pieces[id];
    var q := EditAll(p, ks, e);
    EditAllLemma(p, ks, e);
    EditAllOk(p, c.blockSize, ks, e);
    AddrsShrink(p.blocks, q.blocks);
    assert Fits(c, id, q) by {
      hide PieceOk, CountersOk, ListsOk, SortedByExpire, Addrs, DistinctBufs, EditAll, Editable, Edited;
    }
    PutKeeps(c, id, q);
    hide *;
  }

  /** A buffer that is allocated and that the cache does not hold. */
  ghost predicate Outside(c: Cache, addr: nat) {
    addr in c.pool && forall x :: x in c.pieces ==> addr !in Addrs(c.pieces[x].blocks)
  }

  /** Puts a buffer into an empty slot. */
  ghost function Fill(c: Cache, id: PieceId, k: nat, buf: Buf, dirty: bool): Cache
    requires id in c.pieces && k < |c.pieces[id].blocks|
  {
    Put(c, id, WithBlock(c.pieces[id], k, Block(buf, 0, dirty, false)))
  }

  lemma AddrsFill(bs: seq<Block>, k: nat, b: Block)
    requires k < |bs| && bs[k].buf.Null? && b.buf.Buf? && b.buf.addr !in Addrs(bs)
    ensures Addrs(bs[k := b]) == Addrs(bs) + {b.buf.addr}
    ensures DistinctBufs(bs) ==> DistinctBufs(bs[k := b])
  {
    var ds := bs[k := b];
    assert ds[k].buf.addr == b.buf.addr;
    forall a | a in Addrs(bs) ensures a in Addrs(ds) {
      var j :| 0 <= j < |bs| && bs[j].buf.Buf? && bs[j].buf.addr == a;
      assert ds[j] == bs[j];
    }
    forall j | 0 <= j < |ds| && j != k && ds[j].buf.Buf? ensures ds[j].buf.addr != b.buf.addr {
      assert bs[j].buf.addr in Addrs(bs);
    }
  }

  lemma FillKeeps(c: Cache, id: PieceId, k: nat, buf: Buf, dirty: bool)
    requires CacheInv(c) && id in c.pieces && k < |c.pieces[id].blocks|
    requires c.pieces[id].blocks[k] == EMPTY && buf.Buf? && Outside(c, buf.addr)
    requires !IsGhost(c.pieces[id].cacheState) && (dirty ==> c.pieces[id].cacheState == WRITE_LRU)
    ensures CacheInv(Fill(c, id, k, buf, dirty))
  {
    var p := c.pieces[id];
    var b := Block(buf, 0, dirty, false);
    var q := WithBlock(p, k, b);
    WithBlockOk(p, c.blockSize, k, b);
    AddrsFill(p.blocks, k, b);
    assert Fits(c, id, q) by {
      hide PieceOk, CountersOk, ListsOk, SortedByExpire, Addrs, DistinctBufs;
    }
    PutKeeps(c, id, q);
    hide *;
  }

  // --------------------------------------------------- changes of piece fields

  /** The fields that no recount depends on. */
  predicate SameRecount(p: Piece, q: Piece) {
    && q.size == p.size && q.blocks == p.blocks
    && q.numBlocks == p.numBlocks && q.numDirty == p.numDirty && q.pinned == p.pinned && q.refcount == p.refcount
    && q.cacheState == p.cacheState && q.expire == p.expire
  }

  function SetPiece(c: Cache, id: PieceId, p: Piece): Cache { c.(pieces := c.pieces[id := p]) }

  lemma SameRecountOk(p: Piece, q: Piece, blockSize: int)
    requires PieceOk(p, blockSize) && SameRecount(p, q)
    requires q.pieceRefcount >= 0 && HashInRange(q)
    requires IsGhost(q.cacheState) ==> OkToEvict(q, false)
    ensures PieceOk(q, blockSize)
  {
    hide Tally;
  }

  lemma SetPieceKeeps(c: Cache, id: PieceId, q: Piece)
    requires CacheInv(c) && id in c.pieces && SameRecount(c.pieces[id], q)
    requires q.pieceRefcount >= 0 && HashInRange(q)
    requires IsGhost(q.cacheState) ==> OkToEvict(q, false)
    ensures CacheInv(SetPiece(c, id, q))
  {
    hide Tally, PieceOk, NoDup, Ordered, Addrs, DistinctBufs;
    SameRecountOk(c.pieces[id], q, c.blockSize);
    UpdateLists(c.pieces, c.lru, id, q);
    UpdateSorted(c.pieces, c.lru, c.clock, id, q);
    SameBlocks(c, c.pieces[id := q]);
    hide ListsOk, SortedByExpire, BufsOk, CountersOk;
  }

  /** Pins or unpins the piece entry (piece_refcount). */
  function Pin(c: Cache, id: PieceId, delta: int): Cache
    requires id in c.pieces
  {
    SetPiece(c, id, c.pieces[id].(pieceRefcount := c.pieces[id].pieceRefcount + delta))
  }

  // ------------------------------------------------------------- list changes

  /** update_cache_state: dirty or partly hashed pieces belong in the write list,
      a piece that is neither leaves it for the read list. */
  function UpdateState(c: Cache, id: PieceId, now: int): Cache
    requires |c.lru| == NUM_LRUS && id in c.pieces && 0 <= c.pieces[id].cacheState < NUM_LRUS
  {
    var p := c.pieces[id];
    var desired :=
      if p.numDirty > 0 || p.hash.Some? then WRITE_LRU
      else if p.cacheState == WRITE_LRU then READ_LRU1
      else p.cacheState;
    if desired == p.cacheState then c else MoveTo(c, id, desired, now)
  }

  lemma UpdateStateKeeps(c: Cache, id: PieceId, now: int)
    requires CacheInv(c) && id in c.pieces && now >= c.clock
    ensures CacheInv(UpdateState(c, id, now))
  {
    var d := UpdateState(c, id, now);
    if d != c {
      MoveKeeps(c, id, d.pieces[id].cacheState, now);
      hide CountersOk, BufsOk, SortedByExpire, MoveTo;
    }
  }

  /** Where cache_hit moves a piece, if it moves it at all. A volatile piece never
      moves: the promotion to READ_LRU1 that the source intends is cut off by the
      range test that follows it. */
  function HitTarget(p: Piece, requester: nat, volatileRead: bool): Option<int> {
    if p.cacheState == WRITE_LRU || p.cacheState == VOLATILE_LRU then None
    else if p.lastRequester == requester || requester == 0 then
      if p.cacheState == READ_LRU1_GHOST then Some(READ_LRU1)
      else if p.cacheState == READ_LRU2_GHOST then Some(READ_LRU2)
      else None
    else Some(READ_LRU2)
  }

  /** Whether cache_hit records who asked (0 stands for no requester). */
  predicate HitRecords(p: Piece, requester: nat, volatileRead: bool) {
    && requester != 0 && requester != p.lastRequester
    && !(p.cacheState == VOLATILE_LRU && volatileRead)
  }

  function CacheHit(c: Cache, id: PieceId, requester: nat, volatileRead: bool, now: int): Cache
    requires |c.lru| == NUM_LRUS && id in c.pieces && 0 <= c.pieces[id].cacheState < NUM_LRUS
  {
    var p := c.pieces[id];
    var c1 := if HitRecords(p, requester, volatileRead)
              then SetPiece(c, id, p.(lastRequester := requester)) else c;
    match HitTarget(p, requester, volatileRead)
    case None => c1
    case Some(t) =>
      MoveTo(c1.(lastOp := HitOp(p.cacheState, c.lastOp)), id, t, now)
  }

  /** A hit in a ghost list tells try_evict_blocks which end of the cache is too small. */
  function HitOp(state: int, lastOp: CacheOp): CacheOp {
    if state == READ_LRU1_GHOST then GhostHitLru1
    else if state == READ_LRU2_GHOST then GhostHitLru2 else lastOp
  }

  /** A hit touches nothing but the piece's list, age and last requester, and
      afterwards the piece is in no ghost list. */
  lemma CacheHitEffect(c: Cache, id: PieceId, requester: nat, volatileRead: bool, now: int)
    requires |c.lru| == NUM_LRUS && id in c.pieces && 0 <= c.pieces[id].cacheState < NUM_LRUS
    ensures var d := CacheHit(c, id, requester, volatileRead, now);
      && d.pieces == c.pieces[id := d.pieces[id]]
      && !IsGhost(d.pieces[id].cacheState)
      && d.pieces[id] == c.pieces[id].(cacheState := d.pieces[id].cacheState, expire := d.pieces[id].expire,
                                       lastRequester := d.pieces[id].lastRequester)
      && (c.pieces[id].cacheState == WRITE_LRU ==> d.pieces[id].cacheState == WRITE_LRU)
  {
    hide Relink;
  }

  /** Where a piece of the read lists or their ghosts goes: a second requester moves it to
      the back of the second list, the same one only brings it back from a ghost list. A
      volatile piece stays where it is, although the source means to promote it. */
  lemma HitMoves(c: Cache, id: PieceId, requester: nat, volatileRead: bool, now: int)
    requires CacheInv(c) && id in c.pieces && now >= c.clock
    requires |c.lru| == NUM_LRUS && 0 <= c.pieces[id].cacheState < NUM_LRUS
    ensures var p := c.pieces[id]; var d := CacheHit(c, id, requester, volatileRead, now); var q := d.pieces[id];
      var another := requester != 0 && requester != p.lastRequester;
      && (p.cacheState == VOLATILE_LRU ==> q.cacheState == VOLATILE_LRU && d.lru == c.lru)
      && (p.cacheState >= READ_LRU1 && another ==>
            q.cacheState == READ_LRU2 && q.lastRequester == requester && d.lru[READ_LRU2] != [] && d.lru[READ_LRU2][|d.lru[READ_LRU2]| - 1] == id)
      && (p.cacheState >= READ_LRU1 && !another ==>
            q.lastRequester == p.lastRequester && q.cacheState == if IsGhost(p.cacheState) then p.cacheState - 1 else p.cacheState)
      && (IsGhost(p.cacheState) ==> d.lastOp == if p.cacheState == READ_LRU1_GHOST then GhostHitLru1 else GhostHitLru2)
  {
    hide PiecesOk, CountersOk, ListsOk, SortedByExpire, BufsOk;
    match HitTarget(c.pieces[id], requester, volatileRead)
    case None =>
    case Some(t) => assert |Relink(c.lru, id, c.pieces[id].cacheState, t)[t]| > 0;
  }

  /** What the invariant says of one piece. */
  lemma PieceFacts(c: Cache, id: PieceId)
    requires CacheInv(c) && id in c.pieces
    ensures |c.lru| == NUM_LRUS && 0 <= c.pieces[id].cacheState < NUM_LRUS
    ensures c.pieces[id].numDirty > 0 ==> c.pieces[id].cacheState == WRITE_LRU
    ensures c.pieces[id].pieceRefcount >= 0 && HashInRange(c.pieces[id]) && c.pieces[id].size > 0
    ensures IsGhost(c.pieces[id].cacheState) ==> c.pieces[id].numBlocks == 0 && OkToEvict(c.pieces[id], false)
    ensures PieceOk(c.pieces[id], c.blockSize)
  {
    SizePositive(c.pieces[id], c.blockSize);
    hide Total, Tally, NoDup, Ordered, BufsOk;
  }

  lemma SizePositive(p: Piece, blockSize: int)
    requires blockSize > 0 && |p.blocks| > 0 && (|p.blocks| - 1) * blockSize < p.size
    ensures p.size > 0
  {}

  lemma LastOpKeeps(c: Cache, op: CacheOp)
    requires CacheInv(c)
    ensures CacheInv(c.(lastOp := op))
  {
    hide CountersOk, ListsOk, SortedByExpire, BufsOk, PiecesOk, GhostsBounded;
  }

  /** The piece left its list for the back of list `t`, with a new age. */
  ghost predicate Moved(c: Cache, d: Cache, id: PieceId, t: int, now: int) {
    && |c.lru| == |d.lru| == NUM_LRUS && id in c.pieces && id in d.pieces
    && d.pieces[id].cacheState == t && d.pieces[id].expire == now == d.clock
    && forall i :: 0 <= i < NUM_LRUS ==>
         d.lru[i] == (if i == c.pieces[id].cacheState then Without(c.lru[i], id) else c.lru[i]) + (if i == t then [id] else [])
  }

  ghost predicate Stayed(c: Cache, d: Cache, id: PieceId) {
    && id in c.pieces && id in d.pieces && d.lru == c.lru && d.clock == c.clock
    && d.pieces[id].cacheState == c.pieces[id].cacheState && d.pieces[id].expire == c.pieces[id].expire
  }

  lemma MoveIs(c: Cache, id: PieceId, t: int, now: int)
    requires |c.lru| == NUM_LRUS && id in c.pieces && 0 <= c.pieces[id].cacheState < NUM_LRUS && 0 <= t < NUM_LRUS
    ensures Moved(c, MoveTo(c, id, t, now), id, t, now) && MoveTo(c, id, t, now).lastOp == c.lastOp
  {
    hide Without;
    var d := MoveTo(c, id, t, now);
    forall i | 0 <= i < NUM_LRUS
      ensures d.lru[i] == (if i == c.pieces[id].cacheState then Without(c.lru[i], id) else c.lru[i]) + (if i == t then [id] else [])
    {}
  }

  /** Where update_cache_state takes a piece. */
  lemma UpdateIs(c: Cache, id: PieceId, now: int)
    requires |c.lru| == NUM_LRUS && id in c.pieces && 0 <= c.pieces[id].cacheState < NUM_LRUS
    ensures var p := c.pieces[id]; var d := UpdateState(c, id, now); var busy := p.numDirty > 0 || p.hash.Some?;
      && (busy && p.cacheState != WRITE_LRU ==> Moved(c, d, id, WRITE_LRU, now))
      && (!busy && p.cacheState == WRITE_LRU ==> Moved(c, d, id, READ_LRU1, now))
      && (busy <==> d.pieces[id].cacheState == WRITE_LRU)
      && (busy == (p.cacheState == WRITE_LRU) ==> d == c)
  {
    hide MoveTo, Moved;
    MoveIs(c, id, WRITE_LRU, now);
    MoveIs(c, id, READ_LRU1, now);
    MovedState(c, UpdateState(c, id, now), id, now);
  }

  lemma MovedState(c: Cache, d: Cache, id: PieceId, now: int)
    ensures forall t :: Moved(c, d, id, t, now) ==> id in d.pieces && d.pieces[id].cacheState == t
  {}

  /** All that a hit does to list, age, requester and the record of the last operation. */
  ghost predicate HitDone(c: Cache, d: Cache, id: PieceId, requester: nat, volatileRead: bool, now: int)
    requires id in c.pieces && id in d.pieces
  {
    var p, q := c.pieces[id], d.pieces[id];
    var s, another := p.cacheState, requester != 0 && requester != p.lastRequester;
    && q.lastRequester == (if another && !(s == VOLATILE_LRU && volatileRead) then requester else p.lastRequester)
    && d.lastOp == (if s == READ_LRU1_GHOST then GhostHitLru1 else if s == READ_LRU2_GHOST then GhostHitLru2 else c.lastOp)
    && if s == WRITE_LRU || s == VOLATILE_LRU then Stayed(c, d, id)
       else if another then Moved(c, d, id, READ_LRU2, now)
       else if IsGhost(s) then Moved(c, d, id, s - 1, now)
       else Stayed(c, d, id)
  }

  lemma HitIsDone(c: Cache, id: PieceId, requester: nat, volatileRead: bool, now: int)
    requires |c.lru| == NUM_LRUS && id in c.pieces && 0 <= c.pieces[id].cacheState < NUM_LRUS
    ensures HitDone(c, CacheHit(c, id, requester, volatileRead, now), id, requester, volatileRead, now)
  {
    hide MoveTo, Moved;
    var p := c.pieces[id];
    CacheHitFields(c, id, requester, volatileRead, now);
    var c1 := if HitRecords(p, requester, volatileRead) then SetPiece(c, id, p.(lastRequester := requester)) else c;
    match HitTarget(p, requester, volatileRead)
    case None =>
    case Some(t) =>
      var e := c1.(lastOp := HitOp(p.cacheState, c.lastOp));
      MoveIs(e, id, t, now);
      MovedAlike(c, e, CacheHit(c, id, requester, volatileRead, now), id, t, now);
  }

  lemma CacheHitFields(c: Cache, id: PieceId, requester: nat, volatileRead: bool, now: int)
    requires |c.lru| == NUM_LRUS && id in c.pieces && 0 <= c.pieces[id].cacheState < NUM_LRUS
    ensures var d := CacheHit(c, id, requester, volatileRead, now);
      id in d.pieces && d.pieces[id].lastRequester == if HitRecords(c.pieces[id], requester, volatileRead) then requester else c.pieces[id].lastRequester
  {
    hide Relink;
  }

  lemma MovedAlike(c: Cache, e: Cache, d: Cache, id: PieceId, t: int, now: int)
    requires Moved(e, d, id, t, now) && e.lru == c.lru && id in c.pieces && e.pieces[id].cacheState == c.pieces[id].cacheState
    ensures Moved(c, d, id, t, now)
  {
    hide Without;
  }

  lemma CacheHitKeeps(c: Cache, id: PieceId, requester: nat, volatileRead: bool, now: int)
    requires CacheInv(c) && id in c.pieces && now >= c.clock
    ensures CacheInv(CacheHit(c, id, requester, volatileRead, now))
  {
    hide CacheInv, PieceOk, MoveTo;
    PieceFacts(c, id);
    var p := c.pieces[id];
    var q := if HitRecords(p, requester, volatileRead) then p.(lastRequester := requester) else p;
    assert SetPiece(c, id, p) == c;
    SetPieceKeeps(c, id, q);
    var c1 := SetPiece(c, id, q);
    var op := HitOp(p.cacheState, c.lastOp);
    LastOpKeeps(c1, op);
    match HitTarget(p, requester, volatileRead) {
      case None =>
      case Some(t) => MoveKeeps(c1.(lastOp := op), id, t, now);
    }
  }

  // ------------------------------------------------ how the counters are kept

  /** Put moves the counters by exactly what the piece's own counters moved. */
  lemma PutEffect(c: Cache, id: PieceId, q: Piece)
    requires CacheInv(c) && id in c.pieces && PieceOk(q, c.blockSize)
    ensures var p := c.pieces[id];
      Put(c, id, q) == c.(pieces := c.pieces[id := q],
        readSize := c.readSize + (q.numBlocks - q.numDirty) - (p.numBlocks - p.numDirty),
        writeSize := c.writeSize + q.numDirty - p.numDirty,
        pinned := c.pinned + q.pinned - p.pinned,
        pool := (c.pool - Addrs(p.blocks)) + Addrs(q.blocks))
    ensures Addrs(c.pieces[id].blocks) <= c.pool
  {
    hide Tally, CountersOk, ListsOk, SortedByExpire, Addrs;
  }

  lemma PutTwice(c: Cache, id: PieceId, q: Piece, r: Piece)
    requires id in c.pieces && Addrs(q.blocks) <= Addrs(c.pieces[id].blocks) <= c.pool
    ensures Put(Put(c, id, q), id, r) == Put(c, id, r)
  {
    hide Tally, Addrs;
    var d := Put(c, id, q);
    assert d.pool - Addrs(q.blocks) == c.pool - Addrs(c.pieces[id].blocks);
  }

  lemma EditAllSnoc(p: Piece, ks: seq<nat>, k: nat, e: Edit)
    requires Editable(p, ks + [k], e)
    ensures Editable(p, ks, e) && k !in ks
    ensures Editable(EditAll(p, ks, e), [k], e)
    ensures EditAll(EditAll(p, ks, e), [k], e) == EditAll(p, ks + [k], e)
  {
    EditableSnoc(p, ks, k, e);
    hide Editable, CanEdit, Edited, WithBlock;
    EditAllLemma(p, ks, e);
    EditableOne(EditAll(p, ks, e), k, e);
    assert (ks + [k])[..|ks|] == ks;
    assert [k][..0] == [];
  }

  lemma EditableSnoc(p: Piece, ks: seq<nat>, k: nat, e: Edit)
    requires Editable(p, ks + [k], e)
    ensures Editable(p, ks, e) && k !in ks && k < |p.blocks| && CanEdit(e, p.blocks[k])
  {
    hide CanEdit;
    assert forall i :: 0 <= i < |ks| ==> (ks + [k])[i] == ks[i];
    assert (ks + [k])[|ks|] == k;
  }

  /** Editing one more block after a list of them. */
  lemma EditSnoc(c: Cache, id: PieceId, ks: seq<nat>, k: nat, e: Edit)
    requires CacheInv(c) && id in c.pieces && Editable(c.pieces[id], ks + [k], e)
    ensures Editable(c.pieces[id], ks, e)
    ensures var d := EditBlocks(c, id, ks, e);
      Editable(d.pieces[id], [k], e) && EditBlocks(d, id, [k], e) == EditBlocks(c, id, ks + [k], e)
  {
    hide CacheInv, CanEdit, EditAll, Addrs, Tally;
    var p := c.pieces[id];
    EditAllSnoc(p, ks, k, e);
    EditShrinks(p, ks, e);
    PoolHolds(c, id);
    PutTwice(c, id, EditAll(p, ks, e), EditAll(p, ks + [k], e));
  }

  lemma EditShrinks(p: Piece, ks: seq<nat>, e: Edit)
    requires Editable(p, ks, e)
    ensures Addrs(EditAll(p, ks, e).blocks) <= Addrs(p.blocks)
  {
    EditAllLemma(p, ks, e);
    hide EditAll;
    AddrsShrink(p.blocks, EditAll(p, ks, e).blocks);
  }

  lemma PoolHolds(c: Cache, id: PieceId)
    requires CacheInv(c) && id in c.pieces
    ensures Addrs(c.pieces[id].blocks) <= c.pool
  {
    hide CountersOk, ListsOk, SortedByExpire, PiecesOk, Addrs;
  }

  // --------------------------------------------- allocating and filling pieces

  function BlocksFor(size: int, blockSize: int): int
    requires blockSize > 0
  {
    (size + blockSize - 1) / blockSize
  }

  lemma BlocksForLemma(size: int, blockSize: int)
    requires size > 0 && blockSize > 0
    ensures var n := BlocksFor(size, blockSize); n > 0 && (n - 1) * blockSize < size <= n * blockSize
  {
    var n := BlocksFor(size, blockSize);
    var r := (size + blockSize - 1) % blockSize;
    assert size + blockSize - 1 == n * blockSize + r;
    assert (n - 1) * blockSize == n * blockSize - blockSize;
  }

  function NewPiece(size: int, blockSize: int, requester: nat, state: int, now: int): Piece
    requires size > 0 && blockSize > 0
  {
    BlocksForLemma(size, blockSize);
    Piece(size, seq(BlocksFor(size, blockSize), i => EMPTY), 0, 0, 0, 0, 0, state, now, requester,
          None, false, false, false, false, false, [], [])
  }

  lemma NewPieceOk(size: int, blockSize: int, requester: nat, state: int, now: int)
    requires size > 0 && blockSize > 0 && 0 <= state < NUM_LRUS && !IsGhost(state)
    ensures PieceOk(NewPiece(size, blockSize, requester, state, now), blockSize)
  {
    BlocksForLemma(size, blockSize);
    AllEmpty(NewPiece(size, blockSize, requester, state, now).blocks);
    hide Tally;
  }

  /** A piece state that may be asked of allocate_piece. */
  predicate Allocatable(state: int) { 0 <= state < NUM_LRUS && !IsGhost(state) }

  /** allocate_piece: a new piece joins the asked list; a known one is retained and
      moves only to a list further down. */
  function AllocatePiece(c: Cache, id: PieceId, size: int, requester: nat, state: int, now: int): Cache
    requires |c.lru| == NUM_LRUS && Allocatable(state) && size > 0 && c.blockSize > 0
    requires id in c.pieces ==> 0 <= c.pieces[id].cacheState < NUM_LRUS
  {
    if id !in c.pieces then
      var op := if state == READ_LRU1 then CacheMiss else c.lastOp;
      Insert(c.(lastOp := op), id, NewPiece(size, c.blockSize, requester, state, now))
    else
      var c1 := SetPiece(c, id, c.pieces[id].(markedForEviction := false));
      if c.pieces[id].cacheState > state then MoveTo(c1, id, state, now) else c1
  }

  lemma AllocateEffect(c: Cache, id: PieceId, size: int, requester: nat, state: int, now: int)
    requires |c.lru| == NUM_LRUS && Allocatable(state) && size > 0 && c.blockSize > 0
    requires id in c.pieces ==> 0 <= c.pieces[id].cacheState < NUM_LRUS
    ensures var d := AllocatePiece(c, id, size, requester, state, now);
      && id in d.pieces && d.pieces == c.pieces[id := d.pieces[id]]
      && d.pieces[id].cacheState <= state && (state <= READ_LRU1 ==> !IsGhost(d.pieces[id].cacheState))
      && (id !in c.pieces ==> d.pieces[id] == NewPiece(size, c.blockSize, requester, state, now))
      && (id in c.pieces ==> d.pieces[id] == c.pieces[id].(markedForEviction := false, cacheState := d.pieces[id].cacheState,
                                                          expire := d.pieces[id].expire))
  {
    hide Relink;
  }

  /** A new piece joins the back of the asked list; a known one leaves its list only for one
      of higher rank. A new piece for the first read list is recorded as a miss. */
  ghost predicate Allocated(c: Cache, d: Cache, id: PieceId, state: int, now: int)
    requires |c.lru| == NUM_LRUS && 0 <= state < NUM_LRUS
  {
    && d.lastOp == (if id !in c.pieces && state == READ_LRU1 then CacheMiss else c.lastOp)
    && if id !in c.pieces then d.clock == now && d.lru == c.lru[state := c.lru[state] + [id]]
       else if state < c.pieces[id].cacheState then Moved(c, d, id, state, now)
       else Stayed(c, d, id)
  }

  lemma AllocateIs(c: Cache, id: PieceId, size: int, requester: nat, state: int, now: int)
    requires |c.lru| == NUM_LRUS && Allocatable(state) && size > 0 && c.blockSize > 0
    requires id in c.pieces ==> 0 <= c.pieces[id].cacheState < NUM_LRUS
    ensures Allocated(c, AllocatePiece(c, id, size, requester, state, now), id, state, now)
  {
    hide MoveTo, Moved, BlocksFor;
    if id in c.pieces {
      var c1 := SetPiece(c, id, c.pieces[id].(markedForEviction := false));
      MoveIs(c1, id, state, now);
      if state < c.pieces[id].cacheState { MovedAlike(c, c1, AllocatePiece(c, id, size, requester, state, now), id, state, now); }
    } else {
      NewPieceFields(size, c.blockSize, requester, state, now);
    }
  }

  lemma AllocateKeeps(c: Cache, id: PieceId, size: int, requester: nat, state: int, now: int)
    requires CacheInv(c) && Allocatable(state) && size > 0 && now >= c.clock
    ensures |c.lru| == NUM_LRUS && c.blockSize > 0 && (id in c.pieces ==> 0 <= c.pieces[id].cacheState < NUM_LRUS)
    ensures CacheInv(AllocatePiece(c, id, size, requester, state, now))
  {
    CacheFacts(c);
    hide CacheInv, MoveTo, Insert, PieceOk, NewPiece, BlocksFor;
    if id !in c.pieces {
      var op := if state == READ_LRU1 then CacheMiss else c.lastOp;
      LastOpKeeps(c, op);
      NewPieceOk(size, c.blockSize, requester, state, now);
      NewPieceFields(size, c.blockSize, requester, state, now);
      InsertKeeps(c.(lastOp := op), id, NewPiece(size, c.blockSize, requester, state, now));
    } else {
      PieceFacts(c, id);
      var q := c.pieces[id].(markedForEviction := false);
      SetPieceKeeps(c, id, q);
      if c.pieces[id].cacheState > state { MoveKeeps(SetPiece(c, id, q), id, state, now); }
    }
  }

  lemma NewPieceFields(size: int, blockSize: int, requester: nat, state: int, now: int)
    requires size > 0 && blockSize > 0
    ensures var p := NewPiece(size, blockSize, requester, state, now);
      p.cacheState == state && p.expire == now && p.numBlocks == 0
  {}

  lemma CacheFacts(c: Cache)
    requires CacheInv(c)
    ensures |c.lru| == NUM_LRUS && c.blockSize > 0 && c.ghostSize > 0
  {
    hide CountersOk, SortedByExpire, PiecesOk, BufsOk, NoDup;
  }

  /** add_dirty_block, once the piece is allocated and room was made: the slot gets
      the new buffer, the job is hung on the piece, and the piece becomes the most
      recently used of the write list. */
  ghost function AddDirty(c: Cache, id: PieceId, block: nat, buf: Buf, job: WriteJob, now: int): Cache
    requires CacheInv(c) && id in c.pieces && block < |c.pieces[id].blocks| && now >= c.clock
    requires c.pieces[id].cacheState == WRITE_LRU
    requires c.pieces[id].blocks[block].refcount == 0
    requires buf.Buf? && Outside(c, buf.addr)
  {
    var d := Replaced(c, id, block, buf);
    ReplacedLemma(c, id, block, buf);
    var e := Hung(d, id, block, job);
    HungLemma(d, id, block, job);
    PieceFacts(e, id);
    var f := UpdateState(e, id, now);
    UpdateStateKeeps(e, id, now);
    PieceFacts(f, id);
    MoveTo(f, id, WRITE_LRU, now)
  }

  /** The slot's left-over buffer, if any, is freed and the new one put in its place. */
  ghost function Replaced(c: Cache, id: PieceId, block: nat, buf: Buf): Cache
    requires CacheInv(c) && id in c.pieces && block < |c.pieces[id].blocks|
    requires c.pieces[id].blocks[block].refcount == 0
  {
    SlotFree(c, id, block);
    var c1 := if c.pieces[id].blocks[block].buf.Buf? then EditBlocks(c, id, [block], Free) else c;
    Fill(c1, id, block, buf, true)
  }

  lemma SlotFree(c: Cache, id: PieceId, block: nat)
    requires CacheInv(c) && id in c.pieces && block < |c.pieces[id].blocks|
    requires c.pieces[id].blocks[block].refcount == 0
    ensures c.pieces[id].blocks[block].buf.Buf? ==> Editable(c.pieces[id], [block], Free)
    ensures c.pieces[id].blocks[block].buf.Null? ==> c.pieces[id].blocks[block] == EMPTY
  {
    hide Tally, CountersOk, ListsOk, SortedByExpire, BufsOk;
  }

  lemma OutsideFrees(c: Cache, id: PieceId, block: nat, addr: nat)
    requires CacheInv(c) && id in c.pieces && Editable(c.pieces[id], [block], Free) && Outside(c, addr)
    ensures Outside(EditBlocks(c, id, [block], Free), addr)
  {
    EditShrinks(c.pieces[id], [block], Free);
    hide CacheInv, Addrs, EditAll, Tally, Editable;
  }

  lemma ReplacedLemma(c: Cache, id: PieceId, block: nat, buf: Buf)
    requires CacheInv(c) && id in c.pieces && block < |c.pieces[id].blocks|
    requires c.pieces[id].blocks[block].refcount == 0
    requires c.pieces[id].cacheState == WRITE_LRU && buf.Buf? && Outside(c, buf.addr)
    ensures var d := Replaced(c, id, block, buf); var p, q := c.pieces[id], d.pieces[id];
      && CacheInv(d) && d.clock == c.clock && d.blockSize == c.blockSize && d.pieces == c.pieces[id := q]
      && q == p.(blocks := q.blocks, numBlocks := q.numBlocks, numDirty := q.numDirty, pinned := q.pinned, refcount := q.refcount)
      && q.blocks == p.blocks[block := Block(buf, 0, true, false)] && q.refcount == p.refcount
  {
    hide CacheInv, Addrs, EditAll, Tally, Outside;
    var p := c.pieces[id];
    SlotFree(c, id, block);
    if p.blocks[block].buf.Buf? {
      EditKeeps(c, id, [block], Free);
      EditAllLemma(p, [block], Free);
      OutsideFrees(c, id, block, buf.addr);
      var c1 := EditBlocks(c, id, [block], Free);
      assert block in [block];
      FillKeeps(c1, id, block, buf, true);
      assert c1.pieces[id].blocks == p.blocks[block := EMPTY];
    } else {
      FillKeeps(c, id, block, buf, true);
    }
  }

  function Hung(c: Cache, id: PieceId, block: nat, job: WriteJob): Cache
    requires id in c.pieces
  {
    var p := c.pieces[id];
    SetPiece(c, id, p.(jobs := p.jobs + [job],
                       hash := if block == 0 && p.hash.None? && !p.hashingDone then Some(PartialHash(0, [])) else p.hash))
  }

  lemma HungLemma(c: Cache, id: PieceId, block: nat, job: WriteJob)
    requires CacheInv(c) && id in c.pieces && c.pieces[id].cacheState == WRITE_LRU
    ensures CacheInv(Hung(c, id, block, job))
  {
    hide CacheInv, PieceOk;
    PieceFacts(c, id);
    SetPieceKeeps(c, id, Hung(c, id, block, job).pieces[id]);
  }

  lemma EditNone(c: Cache, id: PieceId, e: Edit)
    requires CacheInv(c) && id in c.pieces
    ensures Editable(c.pieces[id], [], e) && EditBlocks(c, id, [], e) == c
  {
    hide CacheInv, Addrs, Tally;
    PoolHolds(c, id);
    assert c.pieces[id := c.pieces[id]] == c.pieces;
    assert (c.pool - Addrs(c.pieces[id].blocks)) + Addrs(c.pieces[id].blocks) == c.pool;
  }

  /** The cache after one block was edited: each counter moves by at most one. */
  lemma EditOne(c: Cache, id: PieceId, k: nat, e: Edit)
    requires CacheInv(c) && id in c.pieces && k < |c.pieces[id].blocks| && CanEdit(e, c.pieces[id].blocks[k])
    ensures Editable(c.pieces[id], [k], e)
    ensures var p := c.pieces[id]; var q := WithBlock(p, k, Edited(e, p.blocks[k]));
      var d := EditBlocks(c, id, [k], e);
      && CacheInv(d)
      && d == c.(pieces := c.pieces[id := q],
                 readSize := c.readSize + (q.numBlocks - q.numDirty) - (p.numBlocks - p.numDirty),
                 writeSize := c.writeSize + q.numDirty - p.numDirty,
                 pinned := c.pinned + q.pinned - p.pinned,
                 pool := if e == Free then c.pool - {p.blocks[k].buf.addr} else c.pool)
      && BlockOk(p.blocks[k])
  {
    hide CacheInv, PieceOk, Addrs, Tally, WithBlock, Put;
    var p := c.pieces[id];
    var q := WithBlock(p, k, Edited(e, p.blocks[k]));
    EditAllOne(p, k, e);
    PieceFacts(c, id);
    assert BlockOk(p.blocks[k]) by { BlockFacts(p, c.blockSize, k); }
    EditOneOk(p, c.blockSize, k, e);
    PutEffect(c, id, q);
    EditKeeps(c, id, [k], e);
    BufsDistinct(c, id);
    OnePool(p, k, e);
    hide Edited, CanEdit;
  }

  lemma BlockFacts(p: Piece, blockSize: int, k: nat)
    requires PieceOk(p, blockSize) && k < |p.blocks|
    ensures BlockOk(p.blocks[k])
  {}

  lemma BufsDistinct(c: Cache, id: PieceId)
    requires CacheInv(c) && id in c.pieces
    ensures DistinctBufs(c.pieces[id].blocks) && Addrs(c.pieces[id].blocks) <= c.pool
  {
    hide CountersOk, ListsOk, SortedByExpire, PiecesOk, Addrs;
  }

  lemma OnePool(p: Piece, k: nat, e: Edit)
    requires k < |p.blocks| && CanEdit(e, p.blocks[k]) && DistinctBufs(p.blocks)
    ensures var q := WithBlock(p, k, Edited(e, p.blocks[k]));
      Addrs(q.blocks) == if e == Free then Addrs(p.blocks) - {p.blocks[k].buf.addr} else Addrs(p.blocks)
    ensures p.blocks[k].buf.addr in Addrs(p.blocks)
  {
    var q := WithBlock(p, k, Edited(e, p.blocks[k]));
    forall a | a in Addrs(p.blocks) && (e != Free || a != p.blocks[k].buf.addr) ensures a in Addrs(q.blocks) {
      var j :| 0 <= j < |p.blocks| && p.blocks[j].buf.Buf? && p.blocks[j].buf.addr == a;
      assert q.blocks[j].buf == p.blocks[j].buf;
    }
  }

  // --------------------------------------------------------- inserting blocks

  lemma EditableOne(p: Piece, k: nat, e: Edit)
    requires k < |p.blocks| && CanEdit(e, p.blocks[k])
    ensures Editable(p, [k], e)
  {}

  /** What insert_blocks makes of a slot: an existing buffer is never replaced. */
  function Inserted(b: Block, buf: Buf, inc: bool): Block {
    var x := if b.buf.Null? then Block(buf, 0, false, false) else b;
    if inc then x.(refcount := x.refcount + 1) else x
  }

  /** One step of insert_blocks: the buffer fills the slot, or is freed if the slot
      has one already; `inc` takes a reference either way. */
  ghost function InsertOne(c: Cache, id: PieceId, k: nat, buf: Buf, inc: bool): Cache
    requires CacheInv(c) && id in c.pieces && k < |c.pieces[id].blocks|
    requires !IsGhost(c.pieces[id].cacheState) && buf.Buf? && Outside(c, buf.addr)
  {
    if c.pieces[id].blocks[k].buf.Null? then
      var d := Fill(c, id, k, buf, false);
      EditableOne(d.pieces[id], k, IncRef);
      if inc then EditBlocks(d, id, [k], IncRef) else d
    else
      EditableOne(c.pieces[id], k, IncRef);
      var d := if inc then EditBlocks(c, id, [k], IncRef) else c;
      d.(pool := d.pool - {buf.addr})
  }

  lemma SlotEmpty(c: Cache, id: PieceId, k: nat)
    requires CacheInv(c) && id in c.pieces && k < |c.pieces[id].blocks| && c.pieces[id].blocks[k].buf.Null?
    ensures c.pieces[id].blocks[k] == EMPTY
  {
    hide Tally, CountersOk, ListsOk, SortedByExpire, BufsOk;
  }

  lemma PoolForgets(c: Cache, addr: nat)
    requires CacheInv(c) && Outside(c, addr)
    ensures CacheInv(c.(pool := c.pool - {addr}))
  {
    hide CountersOk, ListsOk, SortedByExpire, PiecesOk, GhostsBounded, Addrs, DistinctBufs;
  }

  lemma EditOutside(c: Cache, id: PieceId, k: nat, e: Edit, addr: nat)
    requires CacheInv(c) && id in c.pieces && Editable(c.pieces[id], [k], e) && Outside(c, addr)
    ensures Outside(EditBlocks(c, id, [k], e), addr)
  {
    EditShrinks(c.pieces[id], [k], e);
    hide CacheInv, Addrs, EditAll, Tally, Editable;
  }

  lemma FillOutside(c: Cache, id: PieceId, k: nat, buf: Buf, dirty: bool, addr: nat)
    requires id in c.pieces && k < |c.pieces[id].blocks| && c.pieces[id].blocks[k].buf.Null?
    requires buf.Buf? && Outside(c, buf.addr) && Outside(c, addr) && addr != buf.addr
    ensures Outside(Fill(c, id, k, buf, dirty), addr)
  {
    AddrsFill(c.pieces[id].blocks, k, Block(buf, 0, dirty, false));
    hide Addrs, Tally;
  }

  lemma FillEffect(c: Cache, id: PieceId, k: nat, buf: Buf, dirty: bool)
    requires id in c.pieces && k < |c.pieces[id].blocks| && c.pieces[id].blocks[k] == EMPTY && buf.Buf?
    ensures var d := Fill(c, id, k, buf, dirty); var p, q := c.pieces[id], d.pieces[id];
      && d.pieces == c.pieces[id := q] && d.lru == c.lru && d.clock == c.clock && d.blockSize == c.blockSize
      && q == p.(blocks := p.blocks[k := Block(buf, 0, dirty, false)], numBlocks := p.numBlocks + 1,
                 numDirty := p.numDirty + (if dirty then 1 else 0))
  {
    hide Addrs, Tally;
  }

  /** What a step of insert_blocks does to the cache `c`, given what it makes of it. */
  ghost predicate InsertedOne(c: Cache, id: PieceId, k: nat, buf: Buf, inc: bool, d: Cache)
    requires id in c.pieces && k < |c.pieces[id].blocks|
  {
    && id in d.pieces && CacheInv(d)
    && var p, q := c.pieces[id], d.pieces[id];
      && d.pieces == c.pieces[id := q] && d.lru == c.lru && d.clock == c.clock && d.blockSize == c.blockSize
      && q == p.(blocks := q.blocks, numBlocks := q.numBlocks, pinned := q.pinned, refcount := q.refcount)
      && q.blocks == p.blocks[k := Inserted(p.blocks[k], buf, inc)]
      && q.refcount == p.refcount + (if inc then 1 else 0)
  }

  lemma InsertFresh(c: Cache, id: PieceId, k: nat, buf: Buf, inc: bool)
    requires CacheInv(c) && id in c.pieces && k < |c.pieces[id].blocks| && c.pieces[id].blocks[k].buf.Null?
    requires !IsGhost(c.pieces[id].cacheState) && buf.Buf? && Outside(c, buf.addr)
    ensures InsertedOne(c, id, k, buf, inc, InsertOne(c, id, k, buf, inc))
  {
    hide CacheInv, Outside, Editable, EditBlocks, Fill;
    SlotEmpty(c, id, k);
    FillKeeps(c, id, k, buf, false);
    FillEffect(c, id, k, buf, false);
    EditOne(Fill(c, id, k, buf, false), id, k, IncRef);
  }

  lemma InsertTaken(c: Cache, id: PieceId, k: nat, buf: Buf, inc: bool)
    requires CacheInv(c) && id in c.pieces && k < |c.pieces[id].blocks| && c.pieces[id].blocks[k].buf.Buf?
    requires !IsGhost(c.pieces[id].cacheState) && buf.Buf? && Outside(c, buf.addr)
    ensures InsertedOne(c, id, k, buf, inc, InsertOne(c, id, k, buf, inc))
  {
    hide CacheInv, Outside, Editable, EditBlocks, Fill;
    var p := c.pieces[id];
    EditOne(c, id, k, IncRef);
    var d := if inc then EditBlocks(c, id, [k], IncRef) else c;
    EditOutside(c, id, k, IncRef, buf.addr);
    PoolForgets(d, buf.addr);
    assert c.pieces[id := p] == c.pieces;
    assert p.blocks[k := p.blocks[k]] == p.blocks;
  }

  lemma InsertOneLemma(c: Cache, id: PieceId, k: nat, buf: Buf, inc: bool)
    requires CacheInv(c) && id in c.pieces && k < |c.pieces[id].blocks|
    requires !IsGhost(c.pieces[id].cacheState) && buf.Buf? && Outside(c, buf.addr)
    ensures InsertedOne(c, id, k, buf, inc, InsertOne(c, id, k, buf, inc))
  {
    hide *;
    if c.pieces[id].blocks[k].buf.Null? { InsertFresh(c, id, k, buf, inc); } else { InsertTaken(c, id, k, buf, inc); }
  }

  lemma InsertOneOutside(c: Cache, id: PieceId, k: nat, buf: Buf, inc: bool, a: nat)
    requires CacheInv(c) && id in c.pieces && k < |c.pieces[id].blocks|
    requires !IsGhost(c.pieces[id].cacheState) && buf.Buf? && Outside(c, buf.addr)
    requires Outside(c, a) && a != buf.addr
    ensures Outside(InsertOne(c, id, k, buf, inc), a)
  {
    hide CacheInv, Outside, Editable, EditBlocks, Fill;
    if c.pieces[id].blocks[k].buf.Null? {
      SlotEmpty(c, id, k);
      FillKeeps(c, id, k, buf, false);
      FillEffect(c, id, k, buf, false);
      FillOutside(c, id, k, buf, false, a);
      EditOne(Fill(c, id, k, buf, false), id, k, IncRef);
      EditOutside(Fill(c, id, k, buf, false), id, k, IncRef, a);
    } else {
      EditOne(c, id, k, IncRef);
      EditOutside(c, id, k, IncRef, a);
      PoolOutside(if inc then EditBlocks(c, id, [k], IncRef) else c, buf.addr, a);
    }
  }

  lemma PoolOutside(c: Cache, addr: nat, a: nat)
    requires Outside(c, a) && a != addr
    ensures Outside(c.(pool := c.pool - {addr}), a)
  {}
}
