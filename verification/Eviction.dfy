/** Eviction: what may disappear from the cache behind the back of everyone who
    uses it, and the operations that make it disappear. */
module Eviction {
  import opened CacheModel
  import opened CacheSpec
  import opened BlockEdits
  import opened CacheOps

  // ------------------------------------------------- what eviction may remove

  /** Clean, unreferenced, not being written. */
  predicate Evictable(b: Block) { b.buf.Buf? && b.refcount == 0 && !b.dirty && !b.pending }

  predicate Drained(p: Piece) { forall k :: 0 <= k < |p.blocks| ==> !Evictable(p.blocks[k]) }

  /** `q` is `p` after evictable blocks went; it may have become a ghost if nothing
      was left and nobody was using it. */
  predicate Shrunk(p: Piece, q: Piece) {
    && q == p.(blocks := q.blocks, numBlocks := q.numBlocks, cacheState := q.cacheState)
    && |q.blocks| == |p.blocks|
    && (forall k :: 0 <= k < |p.blocks| ==> q.blocks[k] == p.blocks[k] || (Evictable(p.blocks[k]) && q.blocks[k] == EMPTY))
    && (q.cacheState != p.cacheState ==>
          && OkToEvict(p, false) && (forall k :: 0 <= k < |q.blocks| ==> q.blocks[k] == EMPTY)
          && (p.cacheState == READ_LRU1 || p.cacheState == READ_LRU2) && q.cacheState == p.cacheState + 1)
  }

  /** A piece that may be dropped: unused, and every buffer in it evictable. */
  predicate Droppable(p: Piece) {
    OkToEvict(p, false) && forall k :: 0 <= k < |p.blocks| ==> p.blocks[k] == EMPTY || Evictable(p.blocks[k])
  }

  /** From `c` to `d` only evictable blocks, and pieces nobody uses, have gone. */
  ghost predicate Evicts(c: Cache, d: Cache) {
    && d == c.(pieces := d.pieces, lru := d.lru, readSize := d.readSize, pool := d.pool)
    && d.pieces.Keys <= c.pieces.Keys
    && (forall x :: x in d.pieces ==> Shrunk(c.pieces[x], d.pieces[x]))
    && (forall x :: x in c.pieces && x !in d.pieces ==> Droppable(c.pieces[x]))
    && (forall a :: Outside(c, a) ==> Outside(d, a))
  }

  lemma ShrunkTrans(p: Piece, q: Piece, r: Piece)
    requires Shrunk(p, q) && Shrunk(q, r)
    ensures Shrunk(p, r)
  {}

  lemma DroppableTrans(p: Piece, q: Piece)
    requires Shrunk(p, q) && Droppable(q)
    ensures Droppable(p)
  {
    forall k | 0 <= k < |p.blocks| ensures p.blocks[k] == EMPTY || Evictable(p.blocks[k]) {
      assert q.blocks[k] == EMPTY || Evictable(q.blocks[k]);
    }
  }

  lemma EvictsTrans(c: Cache, d: Cache, e: Cache)
    requires Evicts(c, d) && Evicts(d, e)
    ensures Evicts(c, e)
  {
    forall x | x in e.pieces ensures Shrunk(c.pieces[x], e.pieces[x]) {
      ShrunkTrans(c.pieces[x], d.pieces[x], e.pieces[x]);
    }
    forall x | x in c.pieces && x !in e.pieces ensures Droppable(c.pieces[x]) {
      if x in d.pieces { DroppableTrans(c.pieces[x], d.pieces[x]); }
    }
    hide Shrunk, Droppable, Outside;
  }

  // ------------------------------------------------------------ single pieces

  /** Erasing an unused piece that has no blocks left. */
  lemma EraseEvicts(c: Cache, id: PieceId)
    requires CacheInv(c) && id in c.pieces && c.pieces[id].numBlocks == 0 && OkToEvict(c.pieces[id], false)
    ensures CacheInv(Erase(c, id)) && Evicts(c, Erase(c, id))
  {
    hide CacheInv, PieceOk, Without, Tally;
    PieceFacts(c, id);
    EraseKeeps(c, id);
    assert PieceOk(c.pieces[id], c.blockSize);
    NoBlocksPiece(c.pieces[id], c.blockSize);
    hide OkToEvict;
  }

  lemma NoBlocksPiece(p: Piece, blockSize: int)
    requires PieceOk(p, blockSize) && p.numBlocks == 0
    ensures forall k :: 0 <= k < |p.blocks| ==> p.blocks[k] == EMPTY
  {
    hide Tally;
    NoBlocks(p.blocks);
  }

  /** The front of a list names a piece of that list. */
  predicate FrontOk(c: Cache, list: int) {
    && |c.lru| == NUM_LRUS && 0 <= list < NUM_LRUS && c.lru[list] != []
    && c.lru[list][0] in c.pieces && c.pieces[c.lru[list][0]].cacheState == list
  }

  lemma {:induction false} WithoutShorter(s: seq<PieceId>, x: PieceId)
    requires x in s
    ensures |Without(s, x)| == |s| - 1
  {
    if s[0] != x { WithoutShorter(s[1..], x); }
  }

  /** Makes room in a ghost list: the oldest ghosts are forgotten. */
  ghost function TrimGhosts(c: Cache, list: int): Cache
    requires |c.lru| == NUM_LRUS && 0 <= list < NUM_LRUS
    decreases |c.lru[list]|
  {
    if |c.lru[list]| < c.ghostSize || !FrontOk(c, list) then c else
      var x := c.lru[list][0];
      WithoutShorter(c.lru[list], x);
      TrimGhosts(Erase(c, x), list)
  }

  lemma {:induction false} TrimGhostsLemma(c: Cache, list: int)
    requires CacheInv(c) && IsGhost(list)
    ensures |c.lru| == NUM_LRUS
    ensures var d := TrimGhosts(c, list);
      && CacheInv(d) && Evicts(c, d) && |d.lru| == NUM_LRUS && |d.lru[list]| < d.ghostSize
      && (forall x :: x in c.pieces && c.pieces[x].cacheState != list ==> x in d.pieces && d.pieces[x] == c.pieces[x])
    decreases if |c.lru| == NUM_LRUS then |c.lru[list]| else 0
  {
    hide Without, PiecesOk, CountersOk, ListsOk, SortedByExpire, BufsOk;
    if |c.lru[list]| >= c.ghostSize {
      TrimFacts(c, list);
      var x := c.lru[list][0];
      EraseEvicts(c, x);
      TrimGhostsLemma(Erase(c, x), list);
      hide CacheInv, Shrunk, Droppable;
      EvictsTrans(c, Erase(c, x), TrimGhosts(c, list));
    } else {
      EvictsRefl(c);
    }
  }

  lemma EvictsRefl(c: Cache)
    ensures Evicts(c, c)
  {}

  lemma TrimFacts(c: Cache, list: int)
    requires CacheInv(c) && IsGhost(list) && |c.lru[list]| >= c.ghostSize
    ensures var x := c.lru[list][0];
      && x in c.pieces && c.pieces[x].cacheState == list && c.pieces[x].numBlocks == 0 && OkToEvict(c.pieces[x], false)
      && |Erase(c, x).lru[list]| < |c.lru[list]|
  {
    var x := c.lru[list][0];
    assert x in c.lru[list];
    EraseLists(c, x);
    hide Total, Tally, NoDup, Ordered, BufsOk, Erase;
  }

  /** The piece is linked at the back of the ghost list after its own; its age stays. */
  function ToGhostList(c: Cache, id: PieceId): Cache
    requires |c.lru| == NUM_LRUS && id in c.pieces && 0 <= c.pieces[id].cacheState < NUM_LRUS - 1
  {
    var s := c.pieces[id].cacheState;
    c.(lru := Relink(c.lru, id, s, s + 1), pieces := c.pieces[id := c.pieces[id].(cacheState := s + 1)])
  }

  /** move_to_ghost: a volatile piece is erased, a read piece joins the ghost list
      (trimmed first), any other piece stays where it is. */
  ghost function MoveToGhost(c: Cache, id: PieceId): Cache
    requires CacheInv(c) && id in c.pieces
  {
    var s := c.pieces[id].cacheState;
    PieceFacts(c, id);
    if s == VOLATILE_LRU then Erase(c, id)
    else if s == READ_LRU1 || s == READ_LRU2 then
      TrimGhostsLemma(c, s + 1);
      ToGhostList(TrimGhosts(c, s + 1), id)
    else c
  }

  lemma ToGhostListKeeps(c: Cache, id: PieceId)
    requires CacheInv(c) && id in c.pieces && c.pieces[id].numBlocks == 0 && OkToEvict(c.pieces[id], false)
    requires c.pieces[id].cacheState == READ_LRU1 || c.pieces[id].cacheState == READ_LRU2
    requires |c.lru| == NUM_LRUS && |c.lru[c.pieces[id].cacheState + 1]| < c.ghostSize
    ensures CacheInv(ToGhostList(c, id))
  {
    hide NoDup, Ordered, OkToEvict, PieceOk, CountersOk, SortedByExpire, BufsOk, Relink;
    PieceFacts(c, id);
    var d := ToGhostList(c, id);
    var p, q := c.pieces[id], d.pieces[id];
    RelinkLists(c.pieces, c.lru, id, q);
    RelinkSorted(c.pieces, c.lru, c.clock, id, q, c.clock);
    SameBlocks(c, d.pieces);
    RelinkLemma(c.lru, id, p.cacheState, q.cacheState);
    RestateOk(p, c.blockSize, q.cacheState, p.expire);
    assert q == p.(cacheState := q.cacheState, expire := p.expire);
    hide ListsOk;
  }

  lemma ToGhostListEvicts(c: Cache, id: PieceId)
    requires id in c.pieces && |c.lru| == NUM_LRUS && OkToEvict(c.pieces[id], false)
    requires c.pieces[id].cacheState == READ_LRU1 || c.pieces[id].cacheState == READ_LRU2
    requires forall k :: 0 <= k < |c.pieces[id].blocks| ==> c.pieces[id].blocks[k] == EMPTY
    ensures Evicts(c, ToGhostList(c, id))
  {
    hide Relink, OkToEvict;
    var d := ToGhostList(c, id);
    assert Shrunk(c.pieces[id], d.pieces[id]);
    forall x | x in d.pieces && x != id ensures Shrunk(c.pieces[x], d.pieces[x]) {}
    hide Shrunk;
  }

  lemma MoveToGhostLemma(c: Cache, id: PieceId)
    requires CacheInv(c) && id in c.pieces && c.pieces[id].numBlocks == 0 && OkToEvict(c.pieces[id], false)
    ensures CacheInv(MoveToGhost(c, id)) && Evicts(c, MoveToGhost(c, id))
  {
    hide CacheInv, PieceOk, OkToEvict, Evicts, ToGhostList, Erase, TrimGhosts;
    PieceFacts(c, id);
    var s := c.pieces[id].cacheState;
    if s == VOLATILE_LRU {
      EraseEvicts(c, id);
    } else if s == READ_LRU1 || s == READ_LRU2 {
      TrimGhostsLemma(c, s + 1);
      var t := TrimGhosts(c, s + 1);
      NoBlocksPiece(c.pieces[id], c.blockSize);
      ToGhostListKeeps(t, id);
      ToGhostListEvicts(t, id);
      EvictsTrans(c, t, ToGhostList(t, id));
    } else {
      EvictsRefl(c);
    }
  }

  /** Besides the piece itself only ghosts are affected. */
  lemma MoveToGhostFrame(c: Cache, id: PieceId, x: PieceId)
    requires CacheInv(c) && id in c.pieces && x in c.pieces && x != id && !IsGhost(c.pieces[x].cacheState)
    ensures x in MoveToGhost(c, id).pieces && MoveToGhost(c, id).pieces[x] == c.pieces[x]
  {
    hide CacheInv, PieceOk, OkToEvict, Evicts, TrimGhosts, Relink, Without;
    PieceFacts(c, id);
    var s := c.pieces[id].cacheState;
    if s == READ_LRU1 || s == READ_LRU2 { TrimGhostsLemma(c, s + 1); }
  }

  /** How many ghosts are too many for one more. */
  function Surplus(c: Cache, list: int): nat
    requires |c.lru| == NUM_LRUS && 0 <= list < NUM_LRUS
  {
    if |c.lru[list]| < c.ghostSize || c.ghostSize <= 0 then 0 else |c.lru[list]| - c.ghostSize + 1
  }

  /** The first `n` pieces of the list, and nothing else, are gone. */
  ghost predicate FirstGone(c: Cache, d: Cache, list: int, n: nat)
    requires 0 <= list < |c.lru| && n <= |c.lru[list]|
  {
    var was := c.lru[list];
    && d == c.(lru := c.lru[list := was[n..]], pieces := d.pieces)
    && (forall x :: x in d.pieces <==> x in c.pieces && x !in was[..n])
    && (forall x :: x in d.pieces ==> d.pieces[x] == c.pieces[x])
  }

  lemma FirstGoneMore(c: Cache, e: Cache, d: Cache, list: int, n: nat)
    requires 0 <= list < |c.lru| && n < |c.lru[list]| && FirstGone(c, e, list, 1) && FirstGone(e, d, list, n)
    ensures FirstGone(c, d, list, n + 1)
  {
    var was := c.lru[list];
    assert was[..n + 1] == was[..1] + was[1..][..n] && was[1..][n..] == was[n + 1..];
  }

  lemma EraseFirst(c: Cache, list: int)
    requires CacheInv(c) && IsGhost(list) && |c.lru| == NUM_LRUS && |c.lru[list]| >= c.ghostSize
    ensures c.lru[list] != [] && c.lru[list][0] in c.pieces && c.pieces[c.lru[list][0]].cacheState == list
    ensures CacheInv(Erase(c, c.lru[list][0])) && FirstGone(c, Erase(c, c.lru[list][0]), list, 1)
  {
    hide CacheInv, PieceOk, OkToEvict;
    CacheFacts(c);
    TrimFacts(c, list);
    EraseKeeps(c, c.lru[list][0]);
  }

  /** Exactly the oldest ghosts go, and no more of them than needed. */
  lemma {:induction false} TrimOldest(c: Cache, list: int)
    requires CacheInv(c) && IsGhost(list)
    ensures |c.lru| == NUM_LRUS && Surplus(c, list) <= |c.lru[list]|
    ensures FirstGone(c, TrimGhosts(c, list), list, Surplus(c, list))
    decreases if |c.lru| == NUM_LRUS then |c.lru[list]| else 0
  {
    hide CacheInv, Erase, FirstGone;
    CacheFacts(c);
    if |c.lru[list]| >= c.ghostSize {
      EraseFirst(c, list);
      var e := Erase(c, c.lru[list][0]);
      FirstLists(c, e, list);
      TrimOldest(e, list);
      FirstGoneMore(c, e, TrimGhosts(c, list), list, Surplus(e, list));
    } else {
      NoneGone(c, list);
    }
  }

  lemma FirstLists(c: Cache, e: Cache, list: int)
    requires 0 <= list < |c.lru| && 1 <= |c.lru[list]| && FirstGone(c, e, list, 1)
    ensures |e.lru| == |c.lru| && |e.lru[list]| == |c.lru[list]| - 1 && e.ghostSize == c.ghostSize
  {}

  lemma NoneGone(c: Cache, list: int)
    requires 0 <= list < |c.lru|
    ensures FirstGone(c, c, list, 0)
  {
    assert c.lru[list][..0] == [] && c.lru[list][0..] == c.lru[list];
    assert c.lru[list := c.lru[list]] == c.lru;
  }

  /** A piece of a read list that becomes a ghost: the oldest ghosts of its kind make room
      for it, and it is the youngest. */
  ghost predicate BecameGhost(c: Cache, d: Cache, id: PieceId)
    requires id in c.pieces && |c.lru| == NUM_LRUS && 0 <= c.pieces[id].cacheState < NUM_LRUS - 1
  {
    var s := c.pieces[id].cacheState;
    var ghosts := c.lru[s + 1];
    var n := Surplus(c, s + 1);
    && n <= |ghosts|
    && d.lru == c.lru[s := Without(c.lru[s], id)][s + 1 := ghosts[n..] + [id]]
    && (forall x :: x in d.pieces <==> x in c.pieces && (x == id || x !in ghosts[..n]))
    && (forall x :: x in d.pieces ==> d.pieces[x] == if x == id then c.pieces[x].(cacheState := s + 1) else c.pieces[x])
  }

  lemma GhostIs(c: Cache, id: PieceId)
    requires CacheInv(c) && id in c.pieces && (c.pieces[id].cacheState == READ_LRU1 || c.pieces[id].cacheState == READ_LRU2)
    ensures |c.lru| == NUM_LRUS && BecameGhost(c, MoveToGhost(c, id), id)
  {
    hide CacheInv, PieceOk, OkToEvict, TrimGhosts, Without;
    PieceFacts(c, id);
    var s := c.pieces[id].cacheState;
    TrimOldest(c, s + 1);
    TrimGhostsLemma(c, s + 1);
  }

  // ------------------------------------------------------------- whole pieces

  datatype EvictionMode = AllowGhost | DisallowGhost

  /** The cached blocks below `n` that nobody references, in index order. */
  function Unreferenced(bs: seq<Block>, n: nat): (ks: seq<nat>)
    requires n <= |bs|
    ensures forall i :: 0 <= i < |ks| ==> ks[i] < n && bs[ks[i]].buf.Buf? && bs[ks[i]].refcount == 0
    ensures forall i, j :: 0 <= i < j < |ks| ==> ks[i] < ks[j]
    ensures forall k :: 0 <= k < n && bs[k].buf.Buf? && bs[k].refcount == 0 ==> k in ks
  {
    if n == 0 then [] else
      var ks := Unreferenced(bs, n - 1);
      if bs[n - 1].buf.Buf? && bs[n - 1].refcount == 0 then ks + [n - 1] else ks
  }

  lemma UnreferencedEditable(p: Piece, blockSize: int, n: nat)
    requires PieceOk(p, blockSize) && n <= |p.blocks|
    ensures Editable(p, Unreferenced(p.blocks, n), Free)
  {
    hide Tally, OkToEvict;
  }

  /** evict_piece frees every block nobody references, dirty ones too. */
  ghost function EvictBlocks(c: Cache, id: PieceId): Cache
    requires CacheInv(c) && id in c.pieces
  {
    var p := c.pieces[id];
    PieceFacts(c, id);
    UnreferencedEditable(p, c.blockSize, |p.blocks|);
    EditBlocks(c, id, Unreferenced(p.blocks, |p.blocks|), Free)
  }

  lemma EvictBlocksLemma(c: Cache, id: PieceId)
    requires CacheInv(c) && id in c.pieces
    ensures var d := EvictBlocks(c, id); var p, q := c.pieces[id], d.pieces[id];
      && CacheInv(d)
      && d.blockSize == c.blockSize && d.clock == c.clock && d.lru == c.lru
      && d.pieces == c.pieces[id := q]
      && q == p.(blocks := q.blocks, numBlocks := q.numBlocks, numDirty := q.numDirty, pinned := q.pinned, refcount := q.refcount)
      && q.refcount == p.refcount && |q.blocks| == |p.blocks|
      && (forall k :: 0 <= k < |p.blocks| ==> q.blocks[k] == if p.blocks[k].refcount > 0 then p.blocks[k] else EMPTY)
  {
    hide CacheInv, Tally, Addrs;
    var p := c.pieces[id];
    PieceFacts(c, id);
    var ks := Unreferenced(p.blocks, |p.blocks|);
    UnreferencedEditable(p, c.blockSize, |p.blocks|);
    EditKeeps(c, id, ks, Free);
    EditAllLemma(p, ks, Free);
    hide EditAll, Editable, OkToEvict;
  }

  /** The rest of evict_piece: a piece that is now unused loses its hash and its
      jobs and is erased or becomes a ghost. */
  ghost function Retire(c: Cache, id: PieceId, mode: EvictionMode): Cache
    requires CacheInv(c) && id in c.pieces && c.pieces[id].numBlocks == 0 && OkToEvict(c.pieces[id], true)
  {
    var p := c.pieces[id];
    var c1 := SetPiece(c, id, p.(hash := None, jobs := []));
    PieceFacts(c, id);
    RetireKeeps(c, id);
    if mode == AllowGhost && IsGhost(p.cacheState) then c1
    else if mode == DisallowGhost || p.cacheState == WRITE_LRU || p.cacheState == VOLATILE_LRU then Erase(c1, id)
    else MoveToGhost(c1, id)
  }

  lemma RetireKeeps(c: Cache, id: PieceId)
    requires CacheInv(c) && id in c.pieces && OkToEvict(c.pieces[id], true)
    ensures CacheInv(SetPiece(c, id, c.pieces[id].(hash := None, jobs := [])))
  {
    hide CacheInv, PieceOk;
    PieceFacts(c, id);
    SetPieceKeeps(c, id, c.pieces[id].(hash := None, jobs := []));
  }

  lemma RetireLemma(c: Cache, id: PieceId, mode: EvictionMode)
    requires CacheInv(c) && id in c.pieces && c.pieces[id].numBlocks == 0 && OkToEvict(c.pieces[id], true)
    ensures CacheInv(Retire(c, id, mode))
    ensures Evicts(SetPiece(c, id, c.pieces[id].(hash := None, jobs := [])), Retire(c, id, mode))
  {
    hide CacheInv, PieceOk, Evicts, Erase, MoveToGhost;
    var c1 := SetPiece(c, id, c.pieces[id].(hash := None, jobs := []));
    RetireKeeps(c, id);
    EraseEvicts(c1, id);
    MoveToGhostLemma(c1, id);
    EvictsRefl(c1);
  }

  /** evict_piece: the cache afterwards and whether the piece was evicted. */
  ghost function EvictPiece(c: Cache, id: PieceId, mode: EvictionMode): (Cache, bool)
    requires CacheInv(c) && id in c.pieces
  {
    var d := EvictBlocks(c, id);
    EvictBlocksLemma(c, id);
    if OkToEvict(d.pieces[id], true) && d.pieces[id].numBlocks == 0 then (Retire(d, id, mode), true) else (d, false)
  }

  lemma EvictPieceKeeps(c: Cache, id: PieceId, mode: EvictionMode)
    requires CacheInv(c) && id in c.pieces
    ensures CacheInv(EvictPiece(c, id, mode).0)
  {
    hide CacheInv, PieceOk, OkToEvict, EvictBlocks, Retire, Evicts;
    EvictBlocksLemma(c, id);
    var d := EvictBlocks(c, id);
    if OkToEvict(d.pieces[id], true) && d.pieces[id].numBlocks == 0 { RetireLemma(d, id, mode); }
  }

  /** What evict_piece makes of the piece once nobody uses it. A piece of a read list becomes
      a ghost and a ghost stays one, unless no ghosts are wanted; any other is erased. */
  ghost predicate Retired(c: Cache, d: Cache, id: PieceId, mode: EvictionMode)
    requires id in c.pieces && |c.lru| == NUM_LRUS && 0 <= c.pieces[id].cacheState < NUM_LRUS
  {
    var p := c.pieces[id]; var s := p.cacheState;
    var e := c.(pieces := c.pieces[id := p.(hash := None, jobs := [])]);
    if mode == AllowGhost && IsGhost(s) then d == e
    else if mode == AllowGhost && (s == READ_LRU1 || s == READ_LRU2) then BecameGhost(e, d, id)
    else d == c.(pieces := c.pieces - {id}, lru := c.lru[s := Without(c.lru[s], id)])
  }

  /** A piece is evicted exactly if nobody uses it, whatever its partial hash. Its blocks
      go that nobody references, in any case. */
  ghost predicate EvictsPiece(c: Cache, d: Cache, evicted: bool, id: PieceId, mode: EvictionMode)
    requires id in c.pieces && |c.lru| == NUM_LRUS && 0 <= c.pieces[id].cacheState < NUM_LRUS
  {
    && evicted == OkToEvict(c.pieces[id], true)
    && exists e: Cache ::
         && id in e.pieces && e.lru == c.lru && e.pieces == c.pieces[id := e.pieces[id]]
         && |e.pieces[id].blocks| == |c.pieces[id].blocks| && e.pieces[id].cacheState == c.pieces[id].cacheState
         && (forall k :: 0 <= k < |c.pieces[id].blocks| ==>
               e.pieces[id].blocks[k] == if c.pieces[id].blocks[k].refcount > 0 then c.pieces[id].blocks[k] else EMPTY)
         && if evicted then Retired(e, d, id, mode) else d == e
  }

  lemma RetireIs(c: Cache, id: PieceId, mode: EvictionMode)
    requires CacheInv(c) && id in c.pieces && c.pieces[id].numBlocks == 0 && OkToEvict(c.pieces[id], true)
    ensures |c.lru| == NUM_LRUS && 0 <= c.pieces[id].cacheState < NUM_LRUS && Retired(c, Retire(c, id, mode), id, mode)
  {
    hide CacheInv, PieceOk, OkToEvict, MoveToGhost, BecameGhost, Without;
    var p := c.pieces[id];
    PieceFacts(c, id);
    RetireKeeps(c, id);
    var e := SetPiece(c, id, p.(hash := None, jobs := []));
    if p.cacheState == READ_LRU1 || p.cacheState == READ_LRU2 { GhostIs(e, id); }
    assert e.pieces - {id} == c.pieces - {id};
  }

  lemma EvictPieceIs(c: Cache, id: PieceId, mode: EvictionMode)
    requires CacheInv(c) && id in c.pieces
    ensures |c.lru| == NUM_LRUS && 0 <= c.pieces[id].cacheState < NUM_LRUS
    ensures EvictsPiece(c, EvictPiece(c, id, mode).0, EvictPiece(c, id, mode).1, id, mode)
  {
    hide CacheInv, PieceOk, EvictBlocks, Retire, Retired;
    PieceFacts(c, id);
    EvictBlocksLemma(c, id);
    var e := EvictBlocks(c, id);
    UnusedEmpty(c, e, id);
    if OkToEvict(c.pieces[id], true) { RetireIs(e, id, mode); }
  }

  /** With no references left nothing stays in the piece. */
  lemma UnusedEmpty(c: Cache, e: Cache, id: PieceId)
    requires CacheInv(c) && CacheInv(e) && id in c.pieces && id in e.pieces && |e.pieces[id].blocks| == |c.pieces[id].blocks|
    requires forall k :: 0 <= k < |c.pieces[id].blocks| ==>
               e.pieces[id].blocks[k] == if c.pieces[id].blocks[k].refcount > 0 then c.pieces[id].blocks[k] else EMPTY
    ensures c.pieces[id].refcount == 0 ==> e.pieces[id].numBlocks == 0
  {
    hide CacheInv, Tally;
    var p, q := c.pieces[id], e.pieces[id];
    PieceFacts(c, id);
    PieceFacts(e, id);
    if p.refcount == 0 {
      forall k | 0 <= k < |p.blocks| ensures q.blocks[k] == EMPTY { TallyZero(p.blocks, k); }
      AllEmpty(q.blocks);
    }
  }

  /** Marked for eviction, unused and without jobs. */
  predicate FreeNow(p: Piece) { OkToEvict(p, false) && p.markedForEviction && p.jobs == [] }

  /** maybe_free_piece. */
  ghost function MaybeFree(c: Cache, id: PieceId): Cache
    requires CacheInv(c) && id in c.pieces
  {
    var p := c.pieces[id];
    if FreeNow(p) then EvictPiece(c, id, if p.markedForDeletion then DisallowGhost else AllowGhost).0 else c
  }

  /** A piece nobody uses and no write job waits for. */
  predicate Idle(p: Piece) { OkToEvict(p, false) && p.jobs == [] }

  /** Nothing changed but that idle piece `id` may have been emptied or dropped, and
      with it other pieces' evictable blocks. */
  ghost predicate Frees(c: Cache, d: Cache, id: PieceId) {
    && d.blockSize == c.blockSize && d.clock == c.clock
    && d.pieces.Keys <= c.pieces.Keys
    && (forall x :: x in d.pieces && x != id ==> Shrunk(c.pieces[x], d.pieces[x]))
    && (forall x :: x in c.pieces && x !in d.pieces && x != id ==> Droppable(c.pieces[x]))
    && (id in c.pieces && (id !in d.pieces || d.pieces[id] != c.pieces[id]) ==> Idle(c.pieces[id]))
    && (id in d.pieces && d.pieces[id] != c.pieces[id] ==>
          var p, q := c.pieces[id], d.pieces[id];
          && q == p.(blocks := q.blocks, numBlocks := q.numBlocks, numDirty := q.numDirty, pinned := q.pinned,
                     cacheState := q.cacheState, hash := None)
          && |q.blocks| == |p.blocks| && (forall k :: 0 <= k < |q.blocks| ==> q.blocks[k] == EMPTY))
  }

  lemma FreesRefl(c: Cache, id: PieceId)
    ensures Frees(c, c, id)
  {}

  lemma MaybeFreeLemma(c: Cache, id: PieceId)
    requires CacheInv(c) && id in c.pieces
    ensures CacheInv(MaybeFree(c, id)) && Frees(c, MaybeFree(c, id), id)
  {
    hide CacheInv, PieceOk, EvictBlocks, Retire, Evicts, Frees;
    var p := c.pieces[id];
    if FreeNow(p) {
      var mode := if p.markedForDeletion then DisallowGhost else AllowGhost;
      EvictPieceKeeps(c, id, mode);
      EvictBlocksLemma(c, id);
      var d := EvictBlocks(c, id);
      PieceFacts(c, id);
      AllUnreferenced(p, c.blockSize);
      assert forall k :: 0 <= k < |p.blocks| ==> d.pieces[id].blocks[k] == EMPTY;
      PieceFacts(d, id);
      EmptyPiece(d.pieces[id], d.blockSize);
      RetireLemma(d, id, mode);
      FreesFrom(c, d, Retire(d, id, mode), id);
    } else {
      FreesRefl(c, id);
    }
  }

  lemma AllUnreferenced(p: Piece, blockSize: int)
    requires PieceOk(p, blockSize) && p.refcount == 0
    ensures forall k :: 0 <= k < |p.blocks| ==> p.blocks[k].refcount == 0
  {
    hide Tally;
    forall k | 0 <= k < |p.blocks| ensures p.blocks[k].refcount == 0 { TallyZero(p.blocks, k); }
  }

  lemma EmptyPiece(p: Piece, blockSize: int)
    requires PieceOk(p, blockSize) && forall k :: 0 <= k < |p.blocks| ==> p.blocks[k] == EMPTY
    ensures p.numBlocks == 0 && p.numDirty == 0 && p.pinned == 0 && p.refcount == 0
  {
    AllEmpty(p.blocks);
    hide Tally;
  }

  lemma FreesFrom(c: Cache, d: Cache, e: Cache, id: PieceId)
    requires id in c.pieces && Idle(c.pieces[id]) && d.pieces.Keys == c.pieces.Keys
    requires d.blockSize == c.blockSize && d.clock == c.clock && d.pieces == c.pieces[id := d.pieces[id]]
    requires var p, q := c.pieces[id], d.pieces[id];
      && q == p.(blocks := q.blocks, numBlocks := q.numBlocks, numDirty := q.numDirty, pinned := q.pinned, refcount := q.refcount)
      && q.refcount == p.refcount && |q.blocks| == |p.blocks| && forall k :: 0 <= k < |q.blocks| ==> q.blocks[k] == EMPTY
    requires Evicts(SetPiece(d, id, d.pieces[id].(hash := None, jobs := [])), e)
    ensures Frees(c, e, id)
  {
    hide Droppable;
    var f := SetPiece(d, id, d.pieces[id].(hash := None, jobs := []));
    assert forall x :: x in e.pieces ==> Shrunk(f.pieces[x], e.pieces[x]);
  }

  // -------------------------------------------------------- walking the lists

  /** How far the first pass over the write list may go into a piece: only blocks
      that have been hashed. */
  function HashedEnd(p: Piece, blockSize: int): (n: int)
    requires blockSize > 0
  {
    if p.hash.Some? then p.hash.value.offset / blockSize else |p.blocks|
  }

  lemma HashedEndBound(p: Piece, blockSize: int)
    requires blockSize > 0 && PieceOk(p, blockSize)
    ensures 0 <= HashedEnd(p, blockSize) <= |p.blocks|
  {
    hide Tally;
    if p.hash.Some? { DivBound(p.hash.value.offset, |p.blocks|, blockSize); }
  }

  /** The limit takes in exactly the blocks that were hashed to their last byte, or all of
      them when nothing is being hashed. */
  lemma HashedEndIs(p: Piece, blockSize: int, k: nat)
    requires blockSize > 0 && k < |p.blocks|
    ensures k < HashedEnd(p, blockSize) <==> p.hash.None? || (k + 1) * blockSize <= p.hash.value.offset
  {
    if p.hash.Some? {
      var x, q := p.hash.value.offset, HashedEnd(p, blockSize);
      assert x == q * blockSize + x % blockSize;
      if k < q { MulMono(k + 1, q, blockSize); } else { MulMono(q + 1, k + 1, blockSize); }
    }
  }

  lemma DivBound(x: int, n: int, d: int)
    requires d > 0 && 0 <= x <= n * d
    ensures 0 <= x / d <= n
  {
    var q := x / d;
    assert x == q * d + x % d;
    if q > n { MulMono(n + 1, q, d); }
  }

  lemma MulMono(a: int, b: int, d: int)
    requires a <= b && d > 0
    ensures a * d <= b * d
  {}

  predicate DrainedBelow(p: Piece, end: int) {
    forall k :: 0 <= k < end && k < |p.blocks| ==> !Evictable(p.blocks[k])
  }

  /** The limit a walk over a list has in piece `p`. */
  function WalkEnd(p: Piece, blockSize: int, hashedOnly: bool): int
    requires blockSize > 0
  {
    if hashedOnly then HashedEnd(p, blockSize) else |p.blocks|
  }

  /** Nothing is left to take from `x`: it is spared, gone, or drained up to its limit. */
  ghost predicate Settled(c: Cache, x: PieceId, hashedOnly: bool, ignore: Option<PieceId>) {
    || ignore == Some(x)
    || x !in c.pieces
    || c.blockSize <= 0
    || DrainedBelow(c.pieces[x], WalkEnd(c.pieces[x], c.blockSize, hashedOnly))
  }

  /** Every buffer of `x` at or above index `from` is still where it was. */
  ghost predicate KeptFrom(c: Cache, d: Cache, x: PieceId, from: int) {
    x in c.pieces ==> forall k :: 0 <= k < |c.pieces[x].blocks| && from <= k && c.pieces[x].blocks[k].buf.Buf? ==>
      x in d.pieces && k < |d.pieces[x].blocks| && d.pieces[x].blocks[k] == c.pieces[x].blocks[k]
  }

  /** Least recently used first: a piece lost a buffer only once every piece before it
      had nothing left to give. */
  ghost predicate InOrder(c: Cache, d: Cache, ids: seq<PieceId>, hashedOnly: bool, ignore: Option<PieceId>) {
    forall a, b :: 0 <= a < b < |ids| && !KeptFrom(c, d, ids[b], 0) ==> Settled(d, ids[a], hashedOnly, ignore)
  }

  lemma SettledShrunk(c: Cache, d: Cache, x: PieceId, hashedOnly: bool, ignore: Option<PieceId>)
    requires Evicts(c, d) && Settled(c, x, hashedOnly, ignore)
    ensures Settled(d, x, hashedOnly, ignore)
  {}

  /** Freeing one evictable block. */
  lemma FreeEvicts(c: Cache, id: PieceId, k: nat)
    requires CacheInv(c) && id in c.pieces && k < |c.pieces[id].blocks| && Evictable(c.pieces[id].blocks[k])
    ensures Editable(c.pieces[id], [k], Free)
    ensures var d := EditBlocks(c, id, [k], Free);
      && Evicts(c, d) && d.lru == c.lru && d.readSize == c.readSize - 1
      && d.pieces == c.pieces[id := d.pieces[id]]
      && d.pieces[id] == c.pieces[id].(blocks := c.pieces[id].blocks[k := EMPTY], numBlocks := c.pieces[id].numBlocks - 1)
  {
    hide CacheInv, PieceOk, Addrs, Tally, EditAll, Shrunk, Outside;
    var p := c.pieces[id];
    PieceFacts(c, id);
    EditAllOne(p, k, Free);
    var q := EditAll(p, [k], Free);
    EditAllOk(p, c.blockSize, [k], Free);
    PutEffect(c, id, q);
    FreedShrunk(p, k);
    forall x | x in c.pieces && x != id ensures Shrunk(c.pieces[x], c.pieces[x]) { ShrunkRefl(c.pieces[x]); }
    forall a | Outside(c, a) ensures Outside(EditBlocks(c, id, [k], Free), a) { OutsideFrees(c, id, k, a); }
    hide Editable;
  }

  lemma ShrunkRefl(p: Piece)
    ensures Shrunk(p, p)
  {}

  lemma FreedShrunk(p: Piece, k: nat)
    requires k < |p.blocks| && Evictable(p.blocks[k])
    ensures Shrunk(p, WithBlock(p, k, EMPTY))
    ensures WithBlock(p, k, EMPTY) == p.(blocks := p.blocks[k := EMPTY], numBlocks := p.numBlocks - 1)
  {}

  /** A read piece whose buffers are all referenced, and a write piece whose buffers
      are all dirty, has nothing to evict. */
  lemma NothingToTake(p: Piece, blockSize: int)
    requires PieceOk(p, blockSize) && (p.numBlocks <= p.pinned || p.numDirty == p.numBlocks)
    ensures Drained(p)
  {
    TallyBounds(p.blocks);
    forall k | 0 <= k < |p.blocks| ensures !Evictable(p.blocks[k]) { TallyZero(p.blocks, k); }
    hide Tally;
  }

  /** The lists try_evict_blocks empties, in its order of preference. */
  function EvictLists(lastOp: CacheOp, size1: int, size2: int): (int, int) {
    match lastOp
    case CacheMiss => if size2 > size1 then (READ_LRU2, READ_LRU1) else (READ_LRU1, READ_LRU2)
    case GhostHitLru1 => (READ_LRU2, READ_LRU1)
    case GhostHitLru2 => (READ_LRU1, READ_LRU2)
  }

  function EvictOrder(c: Cache): seq<PieceId>
    requires |c.lru| == NUM_LRUS
  {
    var (first, second) := EvictLists(c.lastOp, |c.lru[READ_LRU1]|, |c.lru[READ_LRU2]|);
    c.lru[VOLATILE_LRU] + c.lru[first] + c.lru[second]
  }

  ghost predicate AllSettled(c: Cache, ids: seq<PieceId>, hashedOnly: bool, ignore: Option<PieceId>) {
    forall x :: x in ids ==> Settled(c, x, hashedOnly, ignore)
  }

  /** Pieces that are not ghosts and not in `ids` are as they were. */
  ghost predicate OthersKept(c: Cache, d: Cache, ids: seq<PieceId>) {
    forall x :: x in c.pieces && !IsGhost(c.pieces[x].cacheState) && x !in ids ==> x in d.pieces && d.pieces[x] == c.pieces[x]
  }

  lemma OrderMonotone(c: Cache, d: Cache, e: Cache, ids: seq<PieceId>, hashedOnly: bool, ignore: Option<PieceId>)
    requires InOrder(c, d, ids, hashedOnly, ignore) && Evicts(d, e)
    requires forall x :: x in ids && KeptFrom(c, d, x, 0) ==> KeptFrom(c, e, x, 0)
    ensures InOrder(c, e, ids, hashedOnly, ignore)
  {
    hide KeptFrom;
    forall a, b | 0 <= a < b < |ids| && !KeptFrom(c, e, ids[b], 0) ensures Settled(e, ids[a], hashedOnly, ignore) {
      SettledShrunk(d, e, ids[a], hashedOnly, ignore);
    }
    hide Settled;
  }

  lemma SettledMonotone(d: Cache, e: Cache, ids: seq<PieceId>, hashedOnly: bool, ignore: Option<PieceId>)
    requires AllSettled(d, ids, hashedOnly, ignore) && Evicts(d, e)
    ensures AllSettled(e, ids, hashedOnly, ignore)
  {
    forall x | x in ids ensures Settled(e, x, hashedOnly, ignore) { SettledShrunk(d, e, x, hashedOnly, ignore); }
    hide Settled;
  }

  /** A piece that kept its buffers and is now a ghost, or gone, had none. */
  lemma KeptStays(c: Cache, d: Cache, e: Cache, x: PieceId, from: int)
    requires KeptFrom(c, d, x, from)
    requires x in d.pieces ==> (x in e.pieces && e.pieces[x] == d.pieces[x]) ||
                               (forall k :: 0 <= k < |d.pieces[x].blocks| ==> d.pieces[x].blocks[k] == EMPTY)
    ensures KeptFrom(c, e, x, from)
  {}

  /** One list after another is in order if nothing was left in the first. */
  lemma OrderExtend(c: Cache, d: Cache, e: Cache, done: seq<PieceId>, ids: seq<PieceId>, ignore: Option<PieceId>)
    requires InOrder(c, e, done, false, ignore) && AllSettled(e, done, false, ignore)
    requires InOrder(d, e, ids, false, ignore)
    requires forall x :: x in ids ==> KeptFrom(c, d, x, 0) && (x in c.pieces <==> x in d.pieces)
    requires forall x :: x in ids && x in c.pieces ==> c.pieces[x] == d.pieces[x]
    ensures InOrder(c, e, done + ids, false, ignore)
  {
    var all := done + ids;
    forall a, b | 0 <= a < b < |all| && !KeptFrom(c, e, all[b], 0) ensures Settled(e, all[a], false, ignore) {
      if b < |done| {
        assert all[a] == done[a] && all[b] == done[b];
      } else if a < |done| {
        assert all[a] in done;
      } else {
        var i, j := a - |done|, b - |done|;
        assert all[a] == ids[i] && all[b] == ids[j] && ids[j] in ids;
        assert !KeptFrom(d, e, ids[j], 0);
      }
    }
    hide Settled;
  }

  /** mark_for_eviction, for a piece no write job waits for. */
  ghost function MarkForEviction(c: Cache, id: PieceId, mode: EvictionMode): Cache
    requires CacheInv(c) && id in c.pieces
  {
    var (d, evicted) := EvictPiece(c, id, mode);
    if evicted || id !in d.pieces then d
    else SetPiece(d, id, d.pieces[id].(markedForEviction := true, markedForDeletion := mode == DisallowGhost))
  }

  /** The piece lost every block nobody referenced; if that left it unused it may be
      gone. Other pieces lost at most evictable blocks. */
  ghost predicate Marks(c: Cache, d: Cache, id: PieceId) {
    && d.blockSize == c.blockSize && d.clock == c.clock
    && d.pieces.Keys <= c.pieces.Keys
    && (forall x :: x in d.pieces && x != id ==> Shrunk(c.pieces[x], d.pieces[x]))
    && (forall x :: x in c.pieces && x !in d.pieces && x != id ==> Droppable(c.pieces[x]))
    && (id in c.pieces && id !in d.pieces ==> OkToEvict(c.pieces[id], true))
    && (id in c.pieces && id in d.pieces ==>
          var p, q := c.pieces[id], d.pieces[id];
          && q == p.(blocks := q.blocks, numBlocks := q.numBlocks, numDirty := q.numDirty, pinned := q.pinned,
                     refcount := q.refcount, cacheState := q.cacheState, hash := q.hash, jobs := q.jobs,
                     markedForEviction := q.markedForEviction, markedForDeletion := q.markedForDeletion)
          && q.refcount == p.refcount && |q.blocks| == |p.blocks| && q.jobs == p.jobs
          && (q.hash == p.hash || (OkToEvict(p, true) && q.hash.None?))
          && (forall k :: 0 <= k < |q.blocks| ==> q.blocks[k] == if p.blocks[k].refcount > 0 then p.blocks[k] else EMPTY))
  }

  lemma MarkLemma(c: Cache, id: PieceId, mode: EvictionMode)
    requires CacheInv(c) && id in c.pieces && c.pieces[id].jobs == []
    ensures CacheInv(MarkForEviction(c, id, mode)) && Marks(c, MarkForEviction(c, id, mode), id)
  {
    hide CacheInv, PieceOk, EvictBlocks, Retire, Evicts, Shrunk, Droppable;
    EvictPieceKeeps(c, id, mode);
    EvictBlocksLemma(c, id);
    var d := EvictBlocks(c, id);
    forall x | x in c.pieces ensures Shrunk(c.pieces[x], c.pieces[x]) { ShrunkRefl(c.pieces[x]); }
    if OkToEvict(d.pieces[id], true) && d.pieces[id].numBlocks == 0 {
      RetireLemma(d, id, mode);
      PieceFacts(d, id);
      NoBlocksPiece(d.pieces[id], d.blockSize);
      MarksRetired(c, d, Retire(d, id, mode), id);
    } else {
      PieceFacts(d, id);
      SetPieceKeeps(d, id, d.pieces[id].(markedForEviction := true, markedForDeletion := mode == DisallowGhost));
    }
  }

  /** A piece that nobody uses is evicted at once, and if it is left as a ghost its marks
      stay as they were; any other is marked, for deletion too if no ghost is wanted. */
  ghost predicate MarkFlags(c: Cache, d: Cache, id: PieceId, mode: EvictionMode)
    requires id in c.pieces
  {
    var p := c.pieces[id];
    && (!OkToEvict(p, true) ==> id in d.pieces)
    && (id in d.pieces ==>
          if OkToEvict(p, true)
          then d.pieces[id].markedForEviction == p.markedForEviction && d.pieces[id].markedForDeletion == p.markedForDeletion
          else d.pieces[id].markedForEviction && d.pieces[id].markedForDeletion == (mode == DisallowGhost))
  }

  lemma MarkIs(c: Cache, id: PieceId, mode: EvictionMode)
    requires CacheInv(c) && id in c.pieces
    ensures MarkFlags(c, MarkForEviction(c, id, mode), id, mode)
  {
    hide CacheInv, PieceOk, EvictBlocks, Retire, Evicts, OkToEvict, Shrunk, Droppable;
    EvictPieceIs(c, id, mode);
    EvictBlocksLemma(c, id);
    var d := EvictBlocks(c, id);
    hide EvictsPiece;
    UsedAlike(c.pieces[id], d.pieces[id]);
    if OkToEvict(d.pieces[id], true) && d.pieces[id].numBlocks == 0 {
      RetireLemma(d, id, mode);
      RetiredMarks(SetPiece(d, id, d.pieces[id].(hash := None, jobs := [])), Retire(d, id, mode), id);
    }
  }

  lemma UsedAlike(p: Piece, q: Piece)
    requires q == p.(blocks := q.blocks, numBlocks := q.numBlocks, numDirty := q.numDirty, pinned := q.pinned, refcount := q.refcount)
    requires q.refcount == p.refcount
    ensures OkToEvict(q, true) == OkToEvict(p, true)
  {}

  lemma RetiredMarks(c: Cache, d: Cache, id: PieceId)
    requires Evicts(c, d) && id in c.pieces
    ensures id in d.pieces ==>
      d.pieces[id].markedForEviction == c.pieces[id].markedForEviction && d.pieces[id].markedForDeletion == c.pieces[id].markedForDeletion
  {}

  lemma MarksRetired(c: Cache, d: Cache, e: Cache, id: PieceId)
    requires id in c.pieces && id in d.pieces && OkToEvict(d.pieces[id], true) && c.pieces[id].jobs == []
    requires d.blockSize == c.blockSize && d.clock == c.clock && d.pieces == c.pieces[id := d.pieces[id]]
    requires var p, q := c.pieces[id], d.pieces[id];
      && q == p.(blocks := q.blocks, numBlocks := q.numBlocks, numDirty := q.numDirty, pinned := q.pinned, refcount := q.refcount)
      && q.refcount == p.refcount && |q.blocks| == |p.blocks|
      && (forall k :: 0 <= k < |q.blocks| ==> q.blocks[k] == EMPTY)
      && (forall k :: 0 <= k < |p.blocks| ==> q.blocks[k] == if p.blocks[k].refcount > 0 then p.blocks[k] else EMPTY)
    requires Evicts(SetPiece(d, id, d.pieces[id].(hash := None, jobs := [])), e)
    ensures Marks(c, e, id)
  {
    hide Droppable;
    var f := SetPiece(d, id, d.pieces[id].(hash := None, jobs := []));
    assert forall x :: x in e.pieces ==> Shrunk(f.pieces[x], e.pieces[x]);
  }
}
