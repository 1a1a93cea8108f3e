/** The values the block cache is made of, the recounts of check_invariant, and
    the invariant every operation keeps. */
module CacheModel {

  datatype Option<+T> = None | Some(value: T)

  // The LRU lists, in the order of cached_piece_entry::cache_state_t. A ghost
  // list always follows the list its pieces were evicted from.
  const WRITE_LRU := 0
  const VOLATILE_LRU := 1
  const READ_LRU1 := 2
  const READ_LRU1_GHOST := 3
  const READ_LRU2 := 4
  const READ_LRU2_GHOST := 5
  const NUM_LRUS := 6

  datatype PieceId = PieceId(storage: nat, index: nat)

  /** A disk buffer: its address in the pool and (a tag for) the bytes in it. */
  datatype Buf = Null | Buf(addr: nat, data: nat)

  datatype Block = Block(buf: Buf, refcount: int, dirty: bool, pending: bool)
  const EMPTY := Block(Null, 0, false, false)

  /** One call of hasher::update: which block's bytes were fed. */
  datatype Fed = Fed(block: nat, data: nat)

  /** `offset` counts bytes; `fed` is the history of the hash context. */
  datatype PartialHash = PartialHash(offset: int, fed: seq<Fed>)

  datatype WriteJob = WriteJob(id: nat, block: nat)
  datatype ReadJob = ReadJob(id: nat, piece: PieceId, offset: nat, size: nat, forceCopy: bool, volatileRead: bool, requester: nat)

  datatype Piece = Piece(
    size: int,
    blocks: seq<Block>,
    numDirty: int,
    numBlocks: int,
    pinned: int,
    refcount: int,
    pieceRefcount: int,
    cacheState: int,
    expire: int,
    lastRequester: nat,
    hash: Option<PartialHash>,
    hashing: bool,
    hashingDone: bool,
    markedForEviction: bool,
    markedForDeletion: bool,
    outstandingRead: bool,
    jobs: seq<WriteJob>,
    readJobs: seq<ReadJob>)

  datatype CacheOp = CacheMiss | GhostHitLru1 | GhostHitLru2

  /** `pool` is the set of allocated buffer addresses and `clock` the last time read. */
  datatype Cache = Cache(
    blockSize: int,
    pieces: map<PieceId, Piece>,
    lru: seq<seq<PieceId>>,
    readSize: int,
    writeSize: int,
    pinned: int,
    lastOp: CacheOp,
    ghostSize: int,
    clock: int,
    pool: set<nat>)

  // ---------------------------------------------------------------- recounts

  datatype Counts = Counts(bufs: int, dirty: int, pinned: int, refs: int) {
    function Plus(o: Counts): Counts {
      Counts(bufs + o.bufs, dirty + o.dirty, pinned + o.pinned, refs + o.refs)
    }
    function Minus(o: Counts): Counts {
      Counts(bufs - o.bufs, dirty - o.dirty, pinned - o.pinned, refs - o.refs)
    }
  }
  const NONE := Counts(0, 0, 0, 0)

  function One(b: Block): Counts {
    Counts(if b.buf.Null? then 0 else 1, if b.dirty then 1 else 0, if b.refcount > 0 then 1 else 0, b.refcount)
  }

  /** The recount of one piece. */
  function Tally(bs: seq<Block>): Counts {
    if bs == [] then NONE else Tally(bs[..|bs| - 1]).Plus(One(bs[|bs| - 1]))
  }

  ghost function AnyId(ids: set<PieceId>): (id: PieceId)
    requires ids != {}
    ensures id in ids
  {
    var id :| id in ids; id
  }

  ghost function SumOver(ids: set<PieceId>, ps: map<PieceId, Piece>): Counts
    requires ids <= ps.Keys
  {
    if ids == {} then NONE else
      var id := AnyId(ids);
      Tally(ps[id].blocks).Plus(SumOver(ids - {id}, ps))
  }

  /** The recount of the whole cache. */
  ghost function Total(ps: map<PieceId, Piece>): Counts { SumOver(ps.Keys, ps) }

  lemma {:induction false} TallyUpdate(bs: seq<Block>, k: nat, b: Block)
    requires k < |bs|
    ensures Tally(bs[k := b]) == Tally(bs).Minus(One(bs[k])).Plus(One(b))
  {
    var n := |bs| - 1;
    if k == n {
      assert bs[k := b][..n] == bs[..n];
    } else {
      assert bs[k := b][..n] == bs[..n][k := b];
      TallyUpdate(bs[..n], k, b);
    }
  }

  lemma {:induction false} SumPick(ids: set<PieceId>, ps: map<PieceId, Piece>, id: PieceId)
    requires id in ids && ids <= ps.Keys
    ensures SumOver(ids, ps) == Tally(ps[id].blocks).Plus(SumOver(ids - {id}, ps))
  {
    hide Tally;
    var x := AnyId(ids);
    if x != id {
      SumPick(ids - {x}, ps, id);
      SumPick(ids - {id}, ps, x);
      assert ids - {x} - {id} == ids - {id} - {x};
    }
  }

  lemma {:induction false} SumFrame(ids: set<PieceId>, ps: map<PieceId, Piece>, qs: map<PieceId, Piece>)
    requires ids <= ps.Keys && ids <= qs.Keys
    requires forall id :: id in ids ==> ps[id].blocks == qs[id].blocks
    ensures SumOver(ids, ps) == SumOver(ids, qs)
  {
    if ids != {} { SumFrame(ids - {AnyId(ids)}, ps, qs); }
  }

  lemma TotalUpdate(ps: map<PieceId, Piece>, id: PieceId, p: Piece)
    ensures Total(ps[id := p]) ==
      (if id in ps then Total(ps).Minus(Tally(ps[id].blocks)) else Total(ps)).Plus(Tally(p.blocks))
  {
    hide Tally;
    var qs := ps[id := p];
    var rest := ps.Keys - {id};
    SumPick(qs.Keys, qs, id);
    assert qs.Keys - {id} == rest;
    SumFrame(rest, ps, qs);
    if id in ps { SumPick(ps.Keys, ps, id); } else { assert rest == ps.Keys; }
  }

  lemma TotalErase(ps: map<PieceId, Piece>, id: PieceId)
    requires id in ps
    ensures Total(ps - {id}) == Total(ps).Minus(Tally(ps[id].blocks))
  {
    hide Tally;
    SumPick(ps.Keys, ps, id);
    assert (ps - {id}).Keys == ps.Keys - {id};
    SumFrame(ps.Keys - {id}, ps, ps - {id});
  }

  /** What a recount of well-formed blocks can say: the counts bound each other. */
  lemma {:induction false} TallyBounds(bs: seq<Block>)
    requires forall k :: 0 <= k < |bs| ==> BlockOk(bs[k])
    ensures var t := Tally(bs);
            0 <= t.dirty <= t.bufs <= |bs| && 0 <= t.pinned <= t.bufs && t.pinned <= t.refs
  {
    if bs != [] { TallyBounds(bs[..|bs| - 1]); }
  }

  /** A recount of zero means every block has the property counted zero times. */
  lemma {:induction false} TallyZero(bs: seq<Block>, k: nat)
    requires forall i :: 0 <= i < |bs| ==> BlockOk(bs[i])
    requires k < |bs|
    ensures Tally(bs).bufs == 0 ==> bs[k].buf.Null?
    ensures Tally(bs).dirty == 0 ==> !bs[k].dirty
    ensures Tally(bs).refs == 0 ==> bs[k].refcount == 0
    ensures Tally(bs).refs >= bs[k].refcount
    ensures Tally(bs).pinned == Tally(bs).bufs && !bs[k].buf.Null? ==> bs[k].refcount > 0
    ensures Tally(bs).dirty == Tally(bs).bufs && !bs[k].buf.Null? ==> bs[k].dirty
  {
    var n := |bs| - 1;
    TallyBounds(bs[..n]);
    if k < n { TallyZero(bs[..n], k); }
  }

  // ------------------------------------------------------------ the invariant

  /** An empty slot is clean, unreferenced and not pending; only dirty blocks are
      ever pending, and a pending block is referenced by the write it waits for. */
  predicate BlockOk(b: Block) {
    && b.refcount >= 0
    && (b.buf.Null? ==> b == EMPTY)
    && (b.pending ==> b.dirty && b.refcount > 0)
  }

  predicate IsGhost(state: int) { state == READ_LRU1_GHOST || state == READ_LRU2_GHOST }

  /** cached_piece_entry::ok_to_evict. */
  predicate OkToEvict(p: Piece, ignoreHash: bool) {
    && p.refcount == 0
    && p.pieceRefcount == 0
    && !p.hashing
    && p.readJobs == []
    && !p.outstandingRead
    && (ignoreHash || p.hash.None? || p.hash.value.offset == 0)
  }

  predicate HashInRange(p: Piece) { p.hash.Some? ==> 0 <= p.hash.value.offset <= p.size }

  /** The counters of a piece agree with the recount of its blocks, dirty blocks
      live in the write list, and a ghost holds nothing and is not in use. */
  predicate PieceOk(p: Piece, blockSize: int) {
    && |p.blocks| > 0
    && (|p.blocks| - 1) * blockSize < p.size <= |p.blocks| * blockSize
    && (forall k :: 0 <= k < |p.blocks| ==> BlockOk(p.blocks[k]))
    && Counts(p.numBlocks, p.numDirty, p.pinned, p.refcount) == Tally(p.blocks)
    && p.pieceRefcount >= 0
    && HashInRange(p)
    && 0 <= p.cacheState < NUM_LRUS
    && (p.numDirty > 0 ==> p.cacheState == WRITE_LRU)
    && (IsGhost(p.cacheState) ==> p.numBlocks == 0 && OkToEvict(p, false))
  }

  ghost function Addrs(bs: seq<Block>): set<nat> {
    set k | 0 <= k < |bs| && bs[k].buf.Buf? :: bs[k].buf.addr
  }

  ghost predicate DistinctBufs(bs: seq<Block>) {
    forall j, k :: 0 <= j < k < |bs| && bs[j].buf.Buf? && bs[k].buf.Buf? ==> bs[j].buf.addr != bs[k].buf.addr
  }

  /** Every cached buffer is allocated and no buffer is held twice. */
  ghost predicate BufsOk(ps: map<PieceId, Piece>, pool: set<nat>) {
    && (forall id :: id in ps ==> Addrs(ps[id].blocks) <= pool && DistinctBufs(ps[id].blocks))
    && (forall x, y :: x in ps && y in ps && x != y ==> Addrs(ps[x].blocks) !! Addrs(ps[y].blocks))
  }

  ghost predicate NoDup(s: seq<PieceId>) {
    forall i, j :: 0 <= i < j < |s| ==> s[i] != s[j]
  }

  /** Every piece is in exactly the one list its cache_state names. */
  ghost predicate ListsOk(ps: map<PieceId, Piece>, lru: seq<seq<PieceId>>) {
    && |lru| == NUM_LRUS
    && (forall i :: 0 <= i < NUM_LRUS ==> NoDup(lru[i]))
    && (forall i, x :: 0 <= i < NUM_LRUS && x in lru[i] ==> x in ps && ps[x].cacheState == i)
    && (forall x :: x in ps ==> 0 <= ps[x].cacheState < NUM_LRUS && x in lru[ps[x].cacheState])
  }

  ghost predicate GhostsBounded(lru: seq<seq<PieceId>>, ghostSize: int) {
    |lru| == NUM_LRUS && |lru[READ_LRU1_GHOST]| <= ghostSize && |lru[READ_LRU2_GHOST]| <= ghostSize
  }

  ghost predicate Ordered(ps: map<PieceId, Piece>, s: seq<PieceId>) {
    forall a, b :: 0 <= a < b < |s| && s[a] in ps && s[b] in ps ==> ps[s[a]].expire <= ps[s[b]].expire
  }

  /** With a monotone clock every list but the ghosts is sorted by `expire`. */
  ghost predicate SortedByExpire(ps: map<PieceId, Piece>, lru: seq<seq<PieceId>>, clock: int) {
    && (forall x :: x in ps ==> ps[x].expire <= clock)
    && (forall i :: 0 <= i < |lru| && !IsGhost(i) ==> Ordered(ps, lru[i]))
  }

  ghost predicate PiecesOk(ps: map<PieceId, Piece>, blockSize: int) {
    forall id :: id in ps ==> PieceOk(ps[id], blockSize)
  }

  /** The three global counters agree with a recount of every block. */
  ghost predicate CountersOk(ps: map<PieceId, Piece>, readSize: int, writeSize: int, pinned: int) {
    var t := Total(ps);
    readSize == t.bufs - t.dirty && writeSize == t.dirty && pinned == t.pinned
  }

  /** block_cache::check_invariant, and what it takes for granted. */
  ghost predicate CacheInv(c: Cache) {
    && c.blockSize > 0
    && c.ghostSize > 0
    && PiecesOk(c.pieces, c.blockSize)
    && CountersOk(c.pieces, c.readSize, c.writeSize, c.pinned)
    && ListsOk(c.pieces, c.lru)
    && GhostsBounded(c.lru, c.ghostSize)
    && SortedByExpire(c.pieces, c.lru, c.clock)
    && BufsOk(c.pieces, c.pool)
  }
}
