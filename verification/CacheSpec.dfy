/** The primitive changes of the cache: replacing a piece, moving it between the
    LRU lists, adding and erasing one. Each keeps CacheInv. */
module CacheSpec {
  import opened CacheModel

  // ------------------------------------------------------------- linked lists

  function Without(s: seq<PieceId>, x: PieceId): seq<PieceId> {
    if s == [] then [] else if s[0] == x then s[1..] else [s[0]] + Without(s[1..], x)
  }

  lemma {:induction false} WithoutLemma(s: seq<PieceId>, x: PieceId)
    requires NoDup(s)
    ensures NoDup(Without(s, x))
    ensures forall y :: y in Without(s, x) <==> y in s && y != x
    ensures |Without(s, x)| == if x in s then |s| - 1 else |s|
  {
    if s != [] {
      var rest := s[1..];
      assert s == [s[0]] + rest;
      assert forall i :: 0 <= i < |rest| ==> rest[i] == s[i + 1];
      WithoutLemma(rest, x);
      assert s[0] !in rest;
      var w := Without(rest, x);
      if s[0] != x {
        assert forall i :: 0 <= i < |w| ==> w[i] in w;
      } else {
        assert Without(s, x) == rest;
      }
    }
  }

  lemma {:induction false} WithoutOrdered(ps: map<PieceId, Piece>, s: seq<PieceId>, x: PieceId)
    requires NoDup(s) && Ordered(ps, s)
    ensures Ordered(ps, Without(s, x))
  {
    if s != [] {
      var rest := s[1..];
      assert forall i :: 0 <= i < |rest| ==> rest[i] == s[i + 1];
      WithoutOrdered(ps, rest, x);
      WithoutLemma(rest, x);
      if s[0] != x {
        ConsOrdered(ps, s[0], Without(rest, x), rest);
      }
    }
  }

  lemma ConsOrdered(ps: map<PieceId, Piece>, x: PieceId, w: seq<PieceId>, rest: seq<PieceId>)
    requires Ordered(ps, w) && Ordered(ps, [x] + rest)
    requires forall y :: y in w ==> y in rest
    ensures Ordered(ps, [x] + w)
  {
    var s, t := [x] + rest, [x] + w;
    forall b | 0 < b < |t| && x in ps && t[b] in ps ensures ps[x].expire <= ps[t[b]].expire {
      assert t[b] == w[b - 1] && w[b - 1] in w;
      var k :| 0 <= k < |rest| && rest[k] == w[b - 1];
      assert s[0] == x && s[k + 1] == t[b];
    }
    assert forall a, b :: 0 < a < b < |t| ==> t[a] == w[a - 1] && t[b] == w[b - 1];
  }

  lemma SnocOrdered(ps: map<PieceId, Piece>, s: seq<PieceId>, id: PieceId)
    requires Ordered(ps, s) && id in ps
    requires forall x :: x in s && x in ps ==> ps[x].expire <= ps[id].expire
    ensures Ordered(ps, s + [id])
  {}

  lemma OrderedFrame(ps: map<PieceId, Piece>, qs: map<PieceId, Piece>, s: seq<PieceId>)
    requires Ordered(ps, s)
    requires forall x :: x in s && x in qs ==> x in ps && ps[x].expire == qs[x].expire
    ensures Ordered(qs, s)
  {}

  /** The other members of a list keep their order. */
  lemma {:induction false} WithoutOrder(a: seq<PieceId>, x: PieceId, b: seq<PieceId>)
    requires x !in a
    ensures Without(a + [x] + b, x) == a + b
  {
    var s := a + [x] + b;
    if a == [] {
      assert s[1..] == b;
    } else {
      assert s[1..] == a[1..] + [x] + b;
      WithoutOrder(a[1..], x, b);
    }
  }

  /** Unlinks `id` from list `src` and links it at the back of list `dst`. */
  function Relink(lru: seq<seq<PieceId>>, id: PieceId, src: int, dst: int): seq<seq<PieceId>>
    requires 0 <= src < |lru| && 0 <= dst < |lru|
  {
    var lists := lru[src := Without(lru[src], id)];
    lists[dst := lists[dst] + [id]]
  }

  lemma RelinkLemma(lru: seq<seq<PieceId>>, id: PieceId, src: int, dst: int)
    requires 0 <= src < |lru| && 0 <= dst < |lru|
    requires forall i :: 0 <= i < |lru| ==> NoDup(lru[i]) && (i != src ==> id !in lru[i])
    requires id in lru[src]
    ensures var n := Relink(lru, id, src, dst);
      && |n| == |lru|
      && (forall i :: 0 <= i < |n| ==> NoDup(n[i]))
      && (forall i, x :: 0 <= i < |n| ==> (x in n[i] <==> if x == id then i == dst else x in lru[i]))
      && (forall i :: 0 <= i < |n| && i != src ==> |n[i]| == |lru[i]| + (if i == dst then 1 else 0))
      && (src != dst ==> |n[src]| == |lru[src]| - 1)
      && (src == dst ==> |n[src]| == |lru[src]|)
  {
    WithoutLemma(lru[src], id);
    hide Without;
  }

  // ---------------------------------------------------------- replacing a piece

  /** Replaces piece `id`; the counters move by the difference of the recounts and
      the buffers that left the piece go back to the pool. */
  ghost function Put(c: Cache, id: PieceId, p: Piece): Cache
    requires id in c.pieces
  {
    var d := Tally(p.blocks).Minus(Tally(c.pieces[id].blocks));
    c.(pieces := c.pieces[id := p],
       readSize := c.readSize + d.bufs - d.dirty,
       writeSize := c.writeSize + d.dirty,
       pinned := c.pinned + d.pinned,
       pool := (c.pool - Addrs(c.pieces[id].blocks)) + Addrs(p.blocks))
  }

  /** `p` may stand where `q` stood: same list, same age, and any buffer it did not
      have before is allocated and in no other piece. */
  ghost predicate Fits(c: Cache, id: PieceId, p: Piece) {
    && id in c.pieces
    && PieceOk(p, c.blockSize)
    && p.cacheState == c.pieces[id].cacheState
    && p.expire == c.pieces[id].expire
    && DistinctBufs(p.blocks)
    && Addrs(p.blocks) <= c.pool
    && (forall x :: x in c.pieces && x != id ==> Addrs(p.blocks) !! Addrs(c.pieces[x].blocks))
  }

  lemma UpdateLists(ps: map<PieceId, Piece>, lru: seq<seq<PieceId>>, id: PieceId, p: Piece)
    requires id in ps && ListsOk(ps, lru) && p.cacheState == ps[id].cacheState
    ensures ListsOk(ps[id := p], lru)
  {
    hide NoDup;
  }

  lemma UpdateSorted(ps: map<PieceId, Piece>, lru: seq<seq<PieceId>>, clock: int, id: PieceId, p: Piece)
    requires id in ps && SortedByExpire(ps, lru, clock) && p.expire == ps[id].expire
    ensures SortedByExpire(ps[id := p], lru, clock)
  {
    forall i | 0 <= i < |lru| && !IsGhost(i) ensures Ordered(ps[id := p], lru[i]) {
      OrderedFrame(ps, ps[id := p], lru[i]);
    }
    hide Ordered;
  }

  lemma UpdateBufs(c: Cache, id: PieceId, p: Piece)
    requires BufsOk(c.pieces, c.pool) && Fits(c, id, p)
    ensures BufsOk(c.pieces[id := p], (c.pool - Addrs(c.pieces[id].blocks)) + Addrs(p.blocks))
  {
    hide PieceOk, Addrs, DistinctBufs;
  }

  lemma PutKeeps(c: Cache, id: PieceId, p: Piece)
    requires CacheInv(c) && Fits(c, id, p)
    ensures CacheInv(Put(c, id, p))
  {
    hide Tally, SumOver, Addrs, PieceOk, DistinctBufs, NoDup, Ordered, IsGhost;
    TotalUpdate(c.pieces, id, p);
    UpdateLists(c.pieces, c.lru, id, p);
    UpdateSorted(c.pieces, c.lru, c.clock, id, p);
    UpdateBufs(c, id, p);
    hide ListsOk, SortedByExpire, BufsOk;
  }

  // ------------------------------------------------------------ moving a piece

  /** The piece becomes the most recently used of list `state`. */
  function MoveTo(c: Cache, id: PieceId, state: int, now: int): Cache
    requires |c.lru| == NUM_LRUS && id in c.pieces
    requires 0 <= c.pieces[id].cacheState < NUM_LRUS && 0 <= state < NUM_LRUS
  {
    c.(lru := Relink(c.lru, id, c.pieces[id].cacheState, state),
       pieces := c.pieces[id := c.pieces[id].(cacheState := state, expire := now)],
       clock := now)
  }

  lemma RelinkLists(ps: map<PieceId, Piece>, lru: seq<seq<PieceId>>, id: PieceId, p: Piece)
    requires ListsOk(ps, lru) && id in ps && 0 <= p.cacheState < NUM_LRUS
    ensures ListsOk(ps[id := p], Relink(lru, id, ps[id].cacheState, p.cacheState))
  {
    RelinkLemma(lru, id, ps[id].cacheState, p.cacheState);
    hide Relink, Without, NoDup;
  }

  lemma RelinkSorted(ps: map<PieceId, Piece>, lru: seq<seq<PieceId>>, clock: int, id: PieceId, p: Piece, now: int)
    requires ListsOk(ps, lru) && SortedByExpire(ps, lru, clock) && id in ps
    requires 0 <= p.cacheState < NUM_LRUS && now >= clock
    requires p.expire == now || (IsGhost(p.cacheState) && p.expire == ps[id].expire)
    ensures SortedByExpire(ps[id := p], Relink(lru, id, ps[id].cacheState, p.cacheState), now)
  {
    var src, dst := ps[id].cacheState, p.cacheState;
    var qs := ps[id := p];
    WithoutLemma(lru[src], id);
    var lists := lru[src := Without(lru[src], id)];
    forall i | 0 <= i < NUM_LRUS && !IsGhost(i) ensures Ordered(qs, Relink(lru, id, src, dst)[i]) {
      if i == src { WithoutOrdered(ps, lru[src], id); }
      OrderedFrame(ps, qs, lists[i]);
      if i == dst { SnocOrdered(qs, lists[i], id); }
    }
    hide Ordered, NoDup;
  }

  lemma SameBlocks(c: Cache, qs: map<PieceId, Piece>)
    requires CountersOk(c.pieces, c.readSize, c.writeSize, c.pinned) && BufsOk(c.pieces, c.pool)
    requires c.pieces.Keys == qs.Keys && forall x :: x in qs ==> qs[x].blocks == c.pieces[x].blocks
    ensures CountersOk(qs, c.readSize, c.writeSize, c.pinned) && BufsOk(qs, c.pool)
  {
    SumFrame(c.pieces.Keys, c.pieces, qs);
    hide SumOver, Addrs, DistinctBufs;
  }

  lemma RestateOk(p: Piece, blockSize: int, state: int, now: int)
    requires PieceOk(p, blockSize) && 0 <= state < NUM_LRUS
    requires p.numDirty > 0 ==> state == WRITE_LRU
    requires IsGhost(state) ==> p.numBlocks == 0 && OkToEvict(p, false)
    ensures PieceOk(p.(cacheState := state, expire := now), blockSize)
  {}

  lemma MoveKeeps(c: Cache, id: PieceId, state: int, now: int)
    requires CacheInv(c) && id in c.pieces && now >= c.clock
    requires 0 <= state < NUM_LRUS && !IsGhost(state)
    requires c.pieces[id].numDirty > 0 ==> state == WRITE_LRU
    ensures CacheInv(MoveTo(c, id, state, now))
  {
    hide Tally, NoDup, Ordered;
    var d := MoveTo(c, id, state, now);
    RelinkLists(c.pieces, c.lru, id, d.pieces[id]);
    RelinkSorted(c.pieces, c.lru, c.clock, id, d.pieces[id], now);
    SameBlocks(c, d.pieces);
    RelinkLemma(c.lru, id, c.pieces[id].cacheState, state);
    RestateOk(c.pieces[id], c.blockSize, state, now);
    hide CountersOk, ListsOk, SortedByExpire, BufsOk, Relink, PieceOk;
  }

  // ------------------------------------------------- adding and erasing a piece

  /** Unlinks the piece and forgets it; its blocks are gone already. */
  function Erase(c: Cache, id: PieceId): Cache
    requires |c.lru| == NUM_LRUS && id in c.pieces && 0 <= c.pieces[id].cacheState < NUM_LRUS
  {
    var s := c.pieces[id].cacheState;
    c.(lru := c.lru[s := Without(c.lru[s], id)], pieces := c.pieces - {id})
  }

  lemma {:induction false} AllEmpty(bs: seq<Block>)
    requires forall k :: 0 <= k < |bs| ==> bs[k] == EMPTY
    ensures Tally(bs) == NONE
  {
    hide Addrs, DistinctBufs;
    if bs != [] { AllEmpty(bs[..|bs| - 1]); }
  }

  lemma NoBlocks(bs: seq<Block>)
    requires forall k :: 0 <= k < |bs| ==> BlockOk(bs[k])
    requires Tally(bs).bufs == 0
    ensures forall k :: 0 <= k < |bs| ==> bs[k] == EMPTY
    ensures Tally(bs) == NONE && Addrs(bs) == {} && DistinctBufs(bs)
  {
    hide Tally;
    forall k | 0 <= k < |bs| ensures bs[k] == EMPTY { TallyZero(bs, k); }
    AllEmpty(bs);
    assert Addrs(bs) == {};
  }

  lemma EraseLists(c: Cache, id: PieceId)
    requires ListsOk(c.pieces, c.lru) && id in c.pieces
    ensures ListsOk(c.pieces - {id}, Erase(c, id).lru)
    ensures |Erase(c, id).lru[c.pieces[id].cacheState]| == |c.lru[c.pieces[id].cacheState]| - 1
  {
    WithoutLemma(c.lru[c.pieces[id].cacheState], id);
    hide Without, NoDup;
  }

  lemma EraseSorted(c: Cache, id: PieceId)
    requires ListsOk(c.pieces, c.lru) && SortedByExpire(c.pieces, c.lru, c.clock) && id in c.pieces
    ensures SortedByExpire(c.pieces - {id}, Erase(c, id).lru, c.clock)
  {
    var s := c.pieces[id].cacheState;
    var d := Erase(c, id);
    forall i | 0 <= i < NUM_LRUS && !IsGhost(i) ensures Ordered(d.pieces, d.lru[i]) {
      if i == s { WithoutOrdered(c.pieces, c.lru[s], id); }
      OrderedFrame(c.pieces, d.pieces, d.lru[i]);
    }
    hide Ordered, NoDup;
  }

  lemma EraseKeeps(c: Cache, id: PieceId)
    requires CacheInv(c) && id in c.pieces && c.pieces[id].numBlocks == 0
    ensures CacheInv(Erase(c, id))
  {
    hide Tally, SumOver, Addrs, NoDup, Ordered, DistinctBufs;
    NoBlocks(c.pieces[id].blocks);
    EraseLists(c, id);
    EraseSorted(c, id);
    TotalErase(c.pieces, id);
    hide SortedByExpire, Without;
  }

  /** Adds a piece that has no blocks at the back of its list. */
  function Insert(c: Cache, id: PieceId, p: Piece): Cache
    requires |c.lru| == NUM_LRUS && 0 <= p.cacheState < NUM_LRUS
  {
    c.(lru := c.lru[p.cacheState := c.lru[p.cacheState] + [id]],
       pieces := c.pieces[id := p],
       clock := p.expire)
  }

  lemma InsertLists(c: Cache, id: PieceId, p: Piece)
    requires ListsOk(c.pieces, c.lru) && id !in c.pieces && 0 <= p.cacheState < NUM_LRUS
    ensures ListsOk(c.pieces[id := p], Insert(c, id, p).lru)
  {}

  lemma InsertSorted(c: Cache, id: PieceId, p: Piece)
    requires ListsOk(c.pieces, c.lru) && SortedByExpire(c.pieces, c.lru, c.clock)
    requires id !in c.pieces && 0 <= p.cacheState < NUM_LRUS && p.expire >= c.clock
    ensures SortedByExpire(c.pieces[id := p], Insert(c, id, p).lru, p.expire)
  {
    var qs := c.pieces[id := p];
    forall i | 0 <= i < NUM_LRUS && !IsGhost(i) ensures Ordered(qs, Insert(c, id, p).lru[i]) {
      OrderedFrame(c.pieces, qs, c.lru[i]);
      if i == p.cacheState { SnocOrdered(qs, c.lru[i], id); }
    }
    hide Ordered, NoDup;
  }

  lemma InsertBufs(c: Cache, id: PieceId, p: Piece)
    requires BufsOk(c.pieces, c.pool) && id !in c.pieces && Addrs(p.blocks) == {} && DistinctBufs(p.blocks)
    ensures BufsOk(c.pieces[id := p], c.pool)
  {
    hide Addrs, DistinctBufs;
  }

  lemma InsertKeeps(c: Cache, id: PieceId, p: Piece)
    requires CacheInv(c) && id !in c.pieces && PieceOk(p, c.blockSize) && !IsGhost(p.cacheState)
    requires p.numBlocks == 0 && p.expire >= c.clock
    ensures CacheInv(Insert(c, id, p))
  {
    hide Tally, SumOver, Addrs, NoDup, Ordered, DistinctBufs;
    NoBlocks(p.blocks);
    TotalUpdate(c.pieces, id, p);
    InsertLists(c, id, p);
    InsertSorted(c, id, p);
    InsertBufs(c, id, p);
    hide ListsOk, SortedByExpire, BufsOk;
  }
}
