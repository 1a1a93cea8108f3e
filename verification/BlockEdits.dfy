/** The changes the cache makes to single blocks, and a piece after a list of its
    blocks was changed: its counters still agree with a recount. */
module BlockEdits {
  import opened CacheModel
  import opened CacheSpec

  datatype Edit = IncRef | DecRef | BeginFlush | EndFlush | Free

  predicate CanEdit(e: Edit, b: Block) {
    b.buf.Buf? &&
    match e
    case IncRef => true
    case DecRef => b.refcount > (if b.pending then 1 else 0)
    case BeginFlush => b.dirty && !b.pending
    case EndFlush => b.dirty && b.pending && b.refcount > 0
    case Free => b.refcount == 0 && !b.pending
  }

  function Edited(e: Edit, b: Block): Block {
    match e
    case IncRef => b.(refcount := b.refcount + 1)
    case DecRef => b.(refcount := b.refcount - 1)
    case BeginFlush => b.(pending := true, refcount := b.refcount + 1)
    case EndFlush => b.(pending := false, dirty := false, refcount := b.refcount - 1)
    case Free => EMPTY
  }

  /** The piece with block `k` replaced and its four counters adjusted. */
  function WithBlock(p: Piece, k: nat, b: Block): Piece
    requires k < |p.blocks|
  {
    var d := One(b).Minus(One(p.blocks[k]));
    p.(blocks := p.blocks[k := b],
       numBlocks := p.numBlocks + d.bufs,
       numDirty := p.numDirty + d.dirty,
       pinned := p.pinned + d.pinned,
       refcount := p.refcount + d.refs)
  }

  lemma WithBlockOk(p: Piece, blockSize: int, k: nat, b: Block)
    requires PieceOk(p, blockSize) && k < |p.blocks| && BlockOk(b)
    requires b.dirty && !p.blocks[k].dirty ==> p.cacheState == WRITE_LRU
    requires !IsGhost(p.cacheState)
    ensures PieceOk(WithBlock(p, k, b), blockSize)
  {
    TallyUpdate(p.blocks, k, b);
    TallyBounds(p.blocks);
    TallyZero(p.blocks, k);
    hide Tally, OkToEvict;
    TallyBounds(p.blocks[k := b]);
  }

  /** The listed blocks are distinct and each may be edited. */
  ghost predicate Editable(p: Piece, ks: seq<nat>, e: Edit) {
    && (forall i :: 0 <= i < |ks| ==> ks[i] < |p.blocks| && CanEdit(e, p.blocks[ks[i]]))
    && (forall i, j :: 0 <= i < j < |ks| ==> ks[i] != ks[j])
  }

  function EditAll(p: Piece, ks: seq<nat>, e: Edit): (q: Piece)
    requires forall i :: 0 <= i < |ks| ==> ks[i] < |p.blocks|
    ensures |q.blocks| == |p.blocks|
  {
    if ks == [] then p else
      var q := EditAll(p, ks[..|ks| - 1], e);
      var k := ks[|ks| - 1];
      WithBlock(q, k, Edited(e, q.blocks[k]))
  }

  /** What a list of edits amounts to: the listed blocks are edited, no other field
      changes, and the dirty count drops once for every flushed or freed dirty block. */
  lemma {:induction false} EditAllLemma(p: Piece, ks: seq<nat>, e: Edit)
    requires Editable(p, ks, e)
    ensures var q := EditAll(p, ks, e);
      && q == p.(blocks := q.blocks, numBlocks := q.numBlocks, numDirty := q.numDirty, pinned := q.pinned, refcount := q.refcount)
      && |q.blocks| == |p.blocks|
      && (forall k :: 0 <= k < |p.blocks| ==> q.blocks[k] == if k in ks then Edited(e, p.blocks[k]) else p.blocks[k])
      && (e != Free && e != EndFlush ==> q.numDirty == p.numDirty)
      && (e == EndFlush ==> q.numDirty == p.numDirty - |ks|)
      && q.numBlocks == p.numBlocks - (if e == Free then |ks| else 0)
      && q.refcount == p.refcount + (match e case IncRef => |ks| case BeginFlush => |ks| case Free => 0 case _ => -|ks|)
  {
    if ks != [] {
      var n := |ks| - 1;
      var init := ks[..n];
      assert ks == init + [ks[n]];
      EditAllLemma(p, init, e);
      assert ks[n] !in init;
    }
  }

  lemma EditAllOne(p: Piece, k: nat, e: Edit)
    requires k < |p.blocks|
    ensures EditAll(p, [k], e) == WithBlock(p, k, Edited(e, p.blocks[k]))
  {
    hide WithBlock, Edited;
    assert EditAll(p, [k][..0], e) == p;
  }

  lemma EditOneOk(p: Piece, blockSize: int, k: nat, e: Edit)
    requires PieceOk(p, blockSize) && k < |p.blocks| && CanEdit(e, p.blocks[k])
    ensures PieceOk(WithBlock(p, k, Edited(e, p.blocks[k])), blockSize)
  {
    TallyZero(p.blocks, k);
    hide Tally, WithBlock;
    WithBlockOk(p, blockSize, k, Edited(e, p.blocks[k]));
  }

  lemma {:induction false} EditAllOk(p: Piece, blockSize: int, ks: seq<nat>, e: Edit)
    requires PieceOk(p, blockSize) && Editable(p, ks, e)
    ensures PieceOk(EditAll(p, ks, e), blockSize)
  {
    hide PieceOk, WithBlock, Edited, CanEdit;
    if ks != [] {
      var n := |ks| - 1;
      var init := ks[..n];
      EditAllLemma(p, init, e);
      EditAllOk(p, blockSize, init, e);
      assert ks[n] !in init;
      EditOneOk(EditAll(p, init, e), blockSize, ks[n], e);
    }
  }
}
