/** The loops of disk_io_thread.cpp, over the block cache object. The mutex is held
    for the whole of each method; what a thread does between two of them is in the
    step system. */
module DiskThreads {
  import opened CacheModel
  import opened CacheSpec
  import opened BlockEdits
  import opened CacheOps
  import opened Eviction
  import opened BlockCaches
  import opened DiskProtocol
  import opened ProtocolFrames
  import opened FlushSteps
  import H = HashSteps

  // -------------------------------------------------------------- build_iovec

  /** Taking a reference and then setting `pending` is what BeginFlush does. */
  ghost function Pended(c: Cache, id: PieceId, k: nat): Cache
    requires id in c.pieces && k < |c.pieces[id].blocks|
  {
    var q := c.pieces[id];
    c.(pieces := c.pieces[id := q.(blocks := q.blocks[k := q.blocks[k].(pending := true)])])
  }

  lemma PendStep(c: Cache, id: PieceId, k: nat)
    requires CacheInv(c) && id in c.pieces && k < |c.pieces[id].blocks| && CanEdit(BeginFlush, c.pieces[id].blocks[k])
    ensures Editable(c.pieces[id], [k], IncRef) && Editable(c.pieces[id], [k], BeginFlush)
    ensures var d := EditBlocks(c, id, [k], IncRef); var q := d.pieces[id];
      && |q.blocks| == |c.pieces[id].blocks| && q.blocks[k].buf.Buf?
      && Pended(d, id, k) == EditBlocks(c, id, [k], BeginFlush)
      && CacheInv(EditBlocks(c, id, [k], BeginFlush))
  {
    hide CacheInv, Put, Editable, EditAll, Tally, EditBlocks;
    EditOne(c, id, k, IncRef);
    EditOne(c, id, k, BeginFlush);
    PendPiece(c.pieces[id], k);
    hide WithBlock, Edited;
  }

  lemma PendPiece(p: Piece, k: nat)
    requires k < |p.blocks|
    ensures var b := p.blocks[k]; var q, r := WithBlock(p, k, Edited(IncRef, b)), WithBlock(p, k, Edited(BeginFlush, b));
      && |q.blocks| == |p.blocks| && q.blocks[k].buf == b.buf
      && q.(blocks := q.blocks[k := q.blocks[k].(pending := true)]) == r
      && q.numBlocks == r.numBlocks && q.numDirty == r.numDirty && q.pinned == r.pinned
  {
    var b := p.blocks[k];
    assert p.blocks[k := Edited(IncRef, b)][k := Edited(BeginFlush, b)] == p.blocks[k := Edited(BeginFlush, b)];
  }

  predicate ToFlush(b: Block) { b.buf.Buf? && !b.pending && b.dirty }

  lemma SelectStep(p: Piece, n: nat)
    requires n < |p.blocks|
    ensures Editable(p, Selected(p.blocks, n), BeginFlush) && n !in Selected(p.blocks, n)
    ensures ToFlush(p.blocks[n]) ==>
      Editable(p, Selected(p.blocks, n) + [n], BeginFlush) && Selected(p.blocks, n + 1) == Selected(p.blocks, n) + [n]
    ensures !ToFlush(p.blocks[n]) ==> Selected(p.blocks, n + 1) == Selected(p.blocks, n)
  {
    SelectedEditable(p, n);
    SelectedEditable(p, n + 1);
  }

  /** One round of the loop of build_iovec. */
  lemma BuildStep(c: Cache, id: PieceId, n: nat)
    requires CacheInv(c) && id in c.pieces && n < |c.pieces[id].blocks|
    ensures var p := c.pieces[id]; var ks := Selected(p.blocks, n);
      && Editable(p, ks, BeginFlush)
      && var d := EditBlocks(c, id, ks, BeginFlush);
      && CacheInv(d) && id in d.pieces && |d.pieces[id].blocks| == |p.blocks| && d.pieces[id].blocks[n] == p.blocks[n]
      && (!ToFlush(p.blocks[n]) ==> Selected(p.blocks, n + 1) == ks)
      && (ToFlush(p.blocks[n]) ==>
            && Selected(p.blocks, n + 1) == ks + [n] && Editable(p, ks + [n], BeginFlush) && Editable(d.pieces[id], [n], IncRef)
            && var e := EditBlocks(d, id, [n], IncRef);
            && id in e.pieces && |e.pieces[id].blocks| == |p.blocks| && e.pieces[id].blocks[n].buf == p.blocks[n].buf
            && Pended(e, id, n) == EditBlocks(c, id, ks + [n], BeginFlush)
            && CacheInv(EditBlocks(c, id, ks + [n], BeginFlush)))
  {
    hide CacheInv, Put, Editable, EditAll, Tally, Selected;
    var p := c.pieces[id];
    var ks := Selected(p.blocks, n);
    SelectStep(p, n);
    EditAllLemma(p, ks, BeginFlush);
    EditKeeps(c, id, ks, BeginFlush);
    EditEffect(c, id, ks, BeginFlush);
    var d := EditBlocks(c, id, ks, BeginFlush);
    if ToFlush(p.blocks[n]) {
      EditSnoc(c, id, ks, n, BeginFlush);
      PendStep(d, id, n);
      EditEffect(d, id, [n], IncRef);
      EditAllLemma(d.pieces[id], [n], IncRef);
      assert n in [n];
    }
  }

  /** Marks the dirty blocks below `end` as being written and lists them. */
  method BuildIovec(cache: BlockCache, id: PieceId, end: nat) returns (iov: seq<Buf>, flushing: seq<nat>)
    requires cache.Valid() && id in cache.pieces
    modifies cache
    ensures cache.Valid()
    ensures var n := |old(cache.pieces)[id].blocks|; var bs := old(cache.pieces)[id].blocks;
      flushing == Selected(bs, if end < n then end else n) && iov == BufsAt(bs, flushing)
    ensures Editable(old(cache.pieces)[id], flushing, BeginFlush)
    ensures cache.Abs() == EditBlocks(old(cache.Abs()), id, flushing, BeginFlush)
  {
    hide CacheInv, Put, Editable, EditAll, Tally, Selected;
    ghost var c := cache.Abs();
    ghost var p := cache.pieces[id];
    var n := |cache.pieces[id].blocks|;
    var stop := if end < n then end else n;
    iov, flushing := [], [];
    EditNone(c, id, BeginFlush);
    SelectNone(p.blocks);
    var i := 0;
    while i < stop
      invariant 0 <= i <= stop && cache.Valid() && id in cache.pieces
      invariant flushing == Selected(p.blocks, i) && Editable(p, flushing, BeginFlush)
      invariant iov == BufsAt(p.blocks, flushing)
      invariant cache.Abs() == EditBlocks(c, id, flushing, BeginFlush)
    {
      BuildStep(c, id, i);
      var b := cache.pieces[id].blocks[i];
      if b.buf.Null? || b.pending || !b.dirty {
        i := i + 1;
        continue;
      }
      BufsSnoc(p.blocks, flushing, i);
      var _ := cache.IncBlockRefcount(id, i);
      flushing := flushing + [i];
      iov := iov + [cache.pieces[id].blocks[i].buf];
      var pe := cache.pieces[id];
      cache.pieces := cache.pieces[id := pe.(blocks := pe.blocks[i := pe.blocks[i].(pending := true)])];
      i := i + 1;
    }
  }

  lemma SelectNone(bs: seq<Block>)
    ensures Selected(bs, 0) == [] && BufsAt(bs, []) == []
  {}

  lemma BufsSnoc(bs: seq<Block>, ks: seq<nat>, k: nat)
    requires k < |bs| && forall i :: 0 <= i < |ks| ==> ks[i] < |bs|
    ensures BufsAt(bs, ks + [k]) == BufsAt(bs, ks) + [bs[k].buf]
  {}

  /** flush_range up to where it drops the mutex. */
  method FlushRangeBegin(cache: BlockCache, id: PieceId, end: nat) returns (iov: seq<Buf>, flushing: seq<nat>)
    requires cache.Valid() && id in cache.pieces
    modifies cache
    ensures cache.Valid()
    ensures var n := |old(cache.pieces)[id].blocks|; var bs := old(cache.pieces)[id].blocks;
      flushing == Selected(bs, if end < n then end else n) && iov == BufsAt(bs, flushing)
    ensures Editable(old(cache.pieces)[id], flushing, BeginFlush)
    ensures cache.Abs() == if flushing == [] then old(cache.Abs()) else Pin(EditBlocks(old(cache.Abs()), id, flushing, BeginFlush), id, 1)
  {
    hide CacheInv, Put, Editable, EditAll, Tally, Selected;
    ghost var c := cache.Abs();
    iov, flushing := BuildIovec(cache, id, end);
    if flushing == [] {
      EditNone(c, id, BeginFlush);
      return;
    }
    FlushPinned(c, id, flushing);
    EditEffect(c, id, flushing, BeginFlush);
    var pe := cache.pieces[id];
    cache.pieces := cache.pieces[id := pe.(pieceRefcount := pe.pieceRefcount + 1)];
  }

  lemma FlushPinned(c: Cache, id: PieceId, ks: seq<nat>)
    requires CacheInv(c) && id in c.pieces && Editable(c.pieces[id], ks, BeginFlush) && ks != []
    ensures CacheInv(Pin(EditBlocks(c, id, ks, BeginFlush), id, 1))
  {
    hide CacheInv, Put, EditAll, Tally;
    assert CanEdit(BeginFlush, c.pieces[id].blocks[ks[0]]);
    NotGhost(c, id);
    EditKeeps(c, id, ks, BeginFlush);
    EditEffect(c, id, ks, BeginFlush);
    PieceFacts(c, id);
    PinKeeps(EditBlocks(c, id, ks, BeginFlush), id, 1);
  }

  // -------------------------------------------------------------- flush_iovec

  /** One call of writev: blocks `first` up to `last` of the list, at a byte offset in
      a piece. */
  datatype Writev = Writev(first: nat, last: nat, piece: nat, offset: nat)

  /** Blocks `first` up to `last` of a list, whose first block has index `k`. */
  function CallAt(first: nat, last: nat, k: nat, piece: nat, blocksInPiece: nat, blockSize: nat): Writev
    requires blocksInPiece > 0
  {
    Writev(first, last, piece + k / blocksInPiece, (k % blocksInPiece) * blockSize)
  }

  /** The call for the run that starts at list position `from`. */
  function Call(ks: seq<nat>, from: nat, piece: nat, blocksInPiece: nat, blockSize: nat): Writev
    requires from < |ks| && blocksInPiece > 0
  {
    CallAt(from, RunEnd(ks, from + 1), ks[from], piece, blocksInPiece, blockSize)
  }

  /** The calls for the list from position `from` on: one for each run of consecutive
      block indices. */
  function Calls(ks: seq<nat>, from: nat, piece: nat, blocksInPiece: nat, blockSize: nat): seq<Writev>
    requires from <= |ks| && blocksInPiece > 0
    decreases |ks| - from
  {
    if from == |ks| then [] else
      var w := Call(ks, from, piece, blocksInPiece, blockSize);
      [w] + Calls(ks, w.last, piece, blocksInPiece, blockSize)
  }

  predicate Covers(w: Writev, i: int) { w.first <= i < w.last }

  /** Every listed block is written by exactly one call; the blocks of a call are
      consecutive, and the next call starts where they stop being so. */
  lemma {:induction false} CallsCover(ks: seq<nat>, from: nat, piece: nat, blocksInPiece: nat, blockSize: nat, i: nat) returns (r: nat)
    requires from <= i < |ks| && blocksInPiece > 0
    ensures var calls := Calls(ks, from, piece, blocksInPiece, blockSize);
      && r < |calls| && Covers(calls[r], i)
      && (forall x :: 0 <= x < |calls| && Covers(calls[x], i) ==> x == r)
      && calls[r] == Call(ks, calls[r].first, piece, blocksInPiece, blockSize)
      && (i > calls[r].first ==> ks[i] == ks[i - 1] + 1)
      && (calls[r].last < |ks| ==> ks[calls[r].last] != ks[calls[r].last - 1] + 1)
      && calls[r].last <= |ks|
    decreases |ks| - from
  {
    hide RunEnd;
    CallsBound(ks, from, piece, blocksInPiece, blockSize);
    CallsTail(ks, from, piece, blocksInPiece, blockSize);
    var w := Call(ks, from, piece, blocksInPiece, blockSize);
    CallsBound(ks, w.last, piece, blocksInPiece, blockSize);
    hide Calls;
    if i < w.last {
      RunEndLemma(ks, from + 1, i);
      r := 0;
    } else {
      var q := CallsCover(ks, w.last, piece, blocksInPiece, blockSize, i);
      r := q + 1;
    }
    hide Call;
  }

  lemma CallsTail(ks: seq<nat>, from: nat, piece: nat, blocksInPiece: nat, blockSize: nat)
    requires from < |ks| && blocksInPiece > 0
    ensures var w := Call(ks, from, piece, blocksInPiece, blockSize);
      var calls, rest := Calls(ks, from, piece, blocksInPiece, blockSize), Calls(ks, w.last, piece, blocksInPiece, blockSize);
      |calls| == |rest| + 1 && calls[0] == w && forall x :: 0 < x < |calls| ==> calls[x] == rest[x - 1]
  {}

  lemma {:induction false} CallsBound(ks: seq<nat>, from: nat, piece: nat, blocksInPiece: nat, blockSize: nat)
    requires from <= |ks| && blocksInPiece > 0
    ensures var calls := Calls(ks, from, piece, blocksInPiece, blockSize);
      forall x :: 0 <= x < |calls| ==> from <= calls[x].first < calls[x].last <= |ks|
    decreases |ks| - from
  {
    if from < |ks| {
      CallsTail(ks, from, piece, blocksInPiece, blockSize);
      CallsBound(ks, Call(ks, from, piece, blocksInPiece, blockSize).last, piece, blocksInPiece, blockSize);
      hide Calls;
    }
  }

  /** Block indices count from the first block of `piece`: the call's place on disk is
      that of its first block, whichever piece that lies in. */
  lemma CallPlace(ks: seq<nat>, from: nat, piece: nat, blocksInPiece: nat, blockSize: nat)
    requires from < |ks| && blocksInPiece > 0
    ensures var w := Call(ks, from, piece, blocksInPiece, blockSize);
      w.piece * (blocksInPiece * blockSize) + w.offset == (piece * blocksInPiece + ks[from]) * blockSize
  {
    var k := ks[from];
    var q, r := k / blocksInPiece, k % blocksInPiece;
    assert k == q * blocksInPiece + r;
    Assoc(piece + q, blocksInPiece, blockSize);
    Distrib((piece + q) * blocksInPiece, r, blockSize);
    Distrib(piece, q, blocksInPiece);
  }

  lemma Assoc(a: int, b: int, c: int)
    ensures a * (b * c) == (a * b) * c
  {}

  lemma Distrib(a: int, b: int, c: int)
    ensures (a + b) * c == a * c + b * c
  {}

  ghost predicate AnyFailed(calls: seq<Writev>, ok: Writev -> bool) { exists w :: w in calls && !ok(w) }

  lemma AnySnoc(calls: seq<Writev>, w: Writev, ok: Writev -> bool)
    ensures AnyFailed(calls + [w], ok) <==> AnyFailed(calls, ok) || !ok(w)
  {
    if AnyFailed(calls, ok) {
      var x :| x in calls && !ok(x);
      assert x in calls + [w];
    }
    assert w in calls + [w];
  }

  lemma NoneFailed(ok: Writev -> bool)
    ensures !AnyFailed([], ok)
  {}

  /** Writes the listed blocks: one writev per run of consecutive indices. `ok` is what
      the storage answers to a call. */
  method FlushIovec(flushing: seq<nat>, piece: nat, blocksInPiece: nat, blockSize: nat, ok: Writev -> bool)
    returns (calls: seq<Writev>, failed: bool)
    requires flushing != [] && blocksInPiece > 0
    ensures calls == Calls(flushing, 0, piece, blocksInPiece, blockSize)
    ensures failed <==> AnyFailed(calls, ok)
  {
    hide Calls, AnyFailed, CallAt;
    calls, failed := [], false;
    var start := 0;
    var i := 1;
    CallsEnd(flushing, piece, blocksInPiece, blockSize);
    assert !AnyFailed([], ok) by { NoneFailed(ok); }
    while i <= |flushing|
      invariant 1 <= i <= |flushing| + 1 && start <= |flushing|
      invariant i <= |flushing| ==> start < i && RunEnd(flushing, start + 1) == RunEnd(flushing, i)
      invariant i == |flushing| + 1 ==> start == |flushing|
      invariant calls + Calls(flushing, start, piece, blocksInPiece, blockSize) == Calls(flushing, 0, piece, blocksInPiece, blockSize)
      invariant failed <==> AnyFailed(calls, ok)
    {
      if i < |flushing| && flushing[i] == flushing[i - 1] + 1 {
        i := i + 1;
        continue;
      }
      var w := CallAt(start, i, flushing[start], piece, blocksInPiece, blockSize);
      if !ok(w) { failed := true; }
      CallNext(flushing, start, i, calls, piece, blocksInPiece, blockSize);
      AnySnoc(calls, w, ok);
      calls := calls + [w];
      start := i;
      i := i + 1;
    }
  }

  lemma CallsEnd(ks: seq<nat>, piece: nat, blocksInPiece: nat, blockSize: nat)
    requires blocksInPiece > 0
    ensures Calls(ks, |ks|, piece, blocksInPiece, blockSize) == []
  {}

  lemma CallNext(ks: seq<nat>, from: nat, i: nat, calls: seq<Writev>, piece: nat, blocksInPiece: nat, blockSize: nat)
    requires from < i <= |ks| && blocksInPiece > 0 && RunEnd(ks, from + 1) == i
    ensures var w := CallAt(from, i, ks[from], piece, blocksInPiece, blockSize);
      calls + [w] + Calls(ks, i, piece, blocksInPiece, blockSize) == calls + Calls(ks, from, piece, blocksInPiece, blockSize)
  {}

  // -------------------------------------------- the end of flush_range, iovec_flushed

  /** The write jobs that stay on the piece and those that are reported, in order. */
  method SortJobs(id: PieceId, jobs: seq<WriteJob>, blocks: seq<Block>, error: bool)
    returns (left: seq<WriteJob>, completed: seq<Event>)
    ensures left == Remaining(jobs, blocks, error) && completed == Completions(id, jobs, blocks, error)
  {
    left, completed := [], [];
    for i := 0 to |jobs|
      invariant left == Remaining(jobs[..i], blocks, error) && completed == Completions(id, jobs[..i], blocks, error)
    {
      var j := jobs[i];
      assert jobs[..i + 1][..i] == jobs[..i];
      if error {
        completed := completed + [Done(id, j, false, 0)];
      } else if Completed(j, blocks) {
        completed := completed + [Done(id, j, true, DataOf(blocks[j.block]))];
      } else {
        left := left + [j];
      }
    }
    assert jobs[..|jobs|] == jobs;
  }

  /** After a write error every job of the piece fails; otherwise each job is either
      reported done or stays, and none is lost. */
  lemma {:induction false} JobsSettled(id: PieceId, jobs: seq<WriteJob>, bs: seq<Block>, failed: bool)
    ensures var left := Remaining(jobs, bs, failed); var done := Completions(id, jobs, bs, failed);
      && (failed ==> left == [] && |done| == |jobs| && forall i :: 0 <= i < |jobs| ==> done[i] == Done(id, jobs[i], false, 0))
      && (!failed ==> forall j :: j in jobs ==> (if Completed(j, bs) then exists e :: e in done && e.job == j else j in left))
      && |left| + |done| == |jobs|
  {
    if jobs != [] {
      var init, j := jobs[..|jobs| - 1], jobs[|jobs| - 1];
      JobsSettled(id, init, bs, failed);
      var done := Completions(id, jobs, bs, failed);
      assert jobs == init + [j];
      if !failed {
        var before := Completions(id, init, bs, failed);
        forall x | x in jobs && Completed(x, bs) ensures exists e :: e in done && e.job == x {
          if x in init {
            var e :| e in before && e.job == x;
            assert e in done;
          } else {
            assert done[|done| - 1].job == x && done[|done| - 1] in done;
          }
        }
      }
    }
  }

  /** blocks_flushed on the piece that flush_range has just unpinned. */
  lemma LandStages(c: Cache, id: PieceId, ks: seq<nat>, now: int)
    requires CanLand(c, id, ks, now)
    ensures CacheInv(Pin(c, id, -1)) && id in Pin(c, id, -1).pieces && Editable(Pin(c, id, -1).pieces[id], ks, EndFlush)
    ensures CacheInv(Cleaned(c, id, ks, now)) && id in Cleaned(c, id, ks, now).pieces
    ensures Flushed(Pin(c, id, -1), id, ks, now) == MaybeFree(Cleaned(c, id, ks, now), id)
  {
    hide CacheInv, PieceOk, EditAll, Put, Editable, UpdateState, MaybeFree;
    NotGhost(c, id);
    PinKeeps(c, id, -1);
    PinEditable(c, id, ks, -1);
    ClearedFacts(c, id, ks, now);
    FlushedKeeps(Pin(c, id, -1), id, ks, now);
    CleanedKeeps(c, id, ks, now);
  }

  /** The jobs of the piece and the blocks that decide about them: if blocks_flushed has
      freed the piece there are no jobs. */
  lemma SameJobs(c: Cache, id: PieceId, ks: seq<nat>, failed: bool, now: int)
    requires CanLand(c, id, ks, now) && Stays(c, id, ks, now)
    ensures CacheInv(Cleaned(c, id, ks, now)) && id in Cleaned(c, id, ks, now).pieces
    ensures var p := MaybeFree(Cleaned(c, id, ks, now), id).pieces[id];
      Completions(id, p.jobs, p.blocks, failed) == Completions(id, c.pieces[id].jobs, EditAll(c.pieces[id], ks, EndFlush).blocks, failed)
  {
    hide CacheInv, EditAll, OthersShrink, Cleaned, OkToEvict, Shrunk, Droppable, EvictPiece;
    CleanedKeeps(c, id, ks, now);
    EditAllFields(c.pieces[id], ks);
    hide Editable;
    MaybeFreeLemma(Cleaned(c, id, ks, now), id);
  }

  /** flush_range takes the mutex again: iovec_flushed, for a piece that blocks_flushed
      leaves in the cache. */
  method IovecFlushed(cache: BlockCache, id: PieceId, flushing: seq<nat>, error: bool, now: int) returns (completed: seq<Event>)
    requires CanLand(cache.Abs(), id, flushing, now) && Stays(cache.Abs(), id, flushing, now)
    modifies cache
    ensures cache.Valid() && cache.Abs() == Landed(old(cache.Abs()), id, flushing, error, now)
    ensures completed == Completions(id, old(cache.pieces)[id].jobs, EditAll(old(cache.pieces)[id], flushing, EndFlush).blocks, error)
  {
    hide CacheInv, PieceOk, EditAll, Put, Editable, UpdateState, Cleaned, Flushed, MaybeFree;
    ghost var c := cache.Abs();
    LandStages(c, id, flushing, now);
    LandedKeeps(c, id, flushing, error, now);
    SameJobs(c, id, flushing, error, now);
    var pe := cache.pieces[id];
    cache.pieces := cache.pieces[id := pe.(pieceRefcount := pe.pieceRefcount - 1)];
    cache.BlocksFlushed(id, flushing, now);
    pe := cache.pieces[id];
    var left;
    left, completed := SortJobs(id, pe.jobs, pe.blocks, error);
    cache.pieces := cache.pieces[id := pe.(jobs := left)];
  }

  /** flush_range from where it takes the mutex again: the blocks are clean, the jobs
      that waited for them are reported, the piece may be freed, and the cache evicts
      under pressure (`mid`). A caller that pinned the piece then lets it go. */
  method FlushRangeEnd(cache: BlockCache, id: PieceId, flushing: seq<nat>, pinned: bool, error: bool, evict: int, now: int)
    returns (completed: seq<Event>, ghost mid: Cache)
    requires CanLand(cache.Abs(), id, flushing, now)
    requires if pinned then cache.pieces[id].pieceRefcount >= 2 else Stays(cache.Abs(), id, flushing, now)
    modifies cache
    ensures cache.Valid() && CacheInv(mid) && Stays(old(cache.Abs()), id, flushing, now)
    ensures var landed := Landed(old(cache.Abs()), id, flushing, error, now);
      CacheInv(landed) && id in landed.pieces && Evicts(MaybeFree(landed, id), mid)
    ensures pinned ==> id in mid.pieces && mid.pieces[id].pieceRefcount >= 1
    ensures cache.Abs() == if pinned then Released(mid, id) else mid
    ensures completed == Completions(id, old(cache.pieces)[id].jobs, EditAll(old(cache.pieces)[id], flushing, EndFlush).blocks, error)
  {
    hide CacheInv, PieceOk, EditAll, Put, CanLand, Landed, Evicts, MaybeFree, Completions, Shrunk, Frees, Stays;
    if pinned { PinnedStaysOn(cache.Abs(), id, flushing, error, now); }
    LandedKeeps(cache.Abs(), id, flushing, error, now);
    completed := IovecFlushed(cache, id, flushing, error, now);
    ghost var landed := cache.Abs();
    if pinned { PinnedNotFreed(landed, id); }
    var _ := cache.MaybeFreePiece(id);
    EvictsRefl(cache.Abs());
    if evict > 0 { var _ := cache.TryEvictBlocks(evict, None); }
    mid := cache.Abs();
    if pinned {
      PinnedStays(landed, mid, id);
      NotGhost(mid, id);
      PinKeeps(mid, id, -1);
      var pe := cache.pieces[id];
      cache.pieces := cache.pieces[id := pe.(pieceRefcount := pe.pieceRefcount - 1)];
      var _ := cache.MaybeFreePiece(id);
    }
  }

  /** A second pin carries the piece through. */
  lemma PinnedStaysOn(c: Cache, id: PieceId, ks: seq<nat>, failed: bool, now: int)
    requires CanLand(c, id, ks, now) && c.pieces[id].pieceRefcount >= 2
    ensures Stays(c, id, ks, now)
    ensures var d := Landed(c, id, ks, failed, now); id in d.pieces && d.pieces[id].pieceRefcount >= 1
  {
    hide CacheInv, EditAll, Cleaned, Editable, OthersShrink, MaybeFree;
    CleanedKeeps(c, id, ks, now);
    EditAllFields(c.pieces[id], ks);
    PinnedNotFreed(Cleaned(c, id, ks, now), id);
  }

  // ------------------------------------------------------ kick_hasher and do_hash

  lemma IncStep(c: Cache, id: PieceId, ks: seq<nat>, k: nat)
    requires CacheInv(c) && id in c.pieces && Editable(c.pieces[id], ks + [k], IncRef)
    ensures Editable(c.pieces[id], ks, IncRef) && k < |c.pieces[id].blocks|
    ensures var d := EditBlocks(c, id, ks, IncRef);
      && CacheInv(d) && id in d.pieces && |d.pieces[id].blocks| == |c.pieces[id].blocks|
      && d.pieces[id].blocks[k] == c.pieces[id].blocks[k] && Editable(d.pieces[id], [k], IncRef)
      && EditBlocks(d, id, [k], IncRef) == EditBlocks(c, id, ks + [k], IncRef)
      && CacheInv(EditBlocks(c, id, ks + [k], IncRef)) && id in EditBlocks(c, id, ks + [k], IncRef).pieces
      && EditBlocks(c, id, ks + [k], IncRef).pieces[id].hashing == c.pieces[id].hashing
  {
    hide CacheInv, Put, EditAll, Tally, CanEdit, Edited;
    EditAllSnoc(c.pieces[id], ks, k, IncRef);
    assert (ks + [k])[|ks|] == k;
    EditAllLemma(c.pieces[id], ks, IncRef);
    EditSnoc(c, id, ks, k, IncRef);
    hide Editable;
    EditKeeps(c, id, ks, IncRef);
    EditKeeps(c, id, ks + [k], IncRef);
    EditEffect(c, id, ks, IncRef);
    EditEffect(c, id, ks + [k], IncRef);
  }

  lemma RangeSnoc(p: Piece, from: nat, end: nat)
    requires from <= end < |p.blocks| && p.blocks[end].buf.Buf? && Editable(p, H.Range(from, end), IncRef)
    ensures H.Range(from, end + 1) == H.Range(from, end) + [end] && Editable(p, H.Range(from, end + 1), IncRef)
  {}

  lemma RunNext(bs: seq<Block>, from: nat)
    requires from <= |bs|
    ensures from == |bs| || bs[from].buf.Null? ==> H.RunFrom(bs, from) == from
    ensures from < |bs| && bs[from].buf.Buf? ==> H.RunFrom(bs, from) == H.RunFrom(bs, from + 1)
  {}

  /** kick_hasher up to where it drops the mutex: the cached blocks that follow the
      cursor are locked, as many as lie next to each other. */
  method KickHasherBegin(cache: BlockCache, id: PieceId) returns (cursor: nat, end: nat)
    requires cache.Valid() && id in cache.pieces
    modifies cache
    ensures cache.Valid()
    ensures var p := old(cache.pieces)[id];
      if p.hash.None? || p.hashing || p.hash.value.offset >= p.size then cursor == end && cache.Abs() == old(cache.Abs()) else
        && cache.blockSize > 0 && cursor == p.hash.value.offset / cache.blockSize && cursor <= |p.blocks| && end == H.RunFrom(p.blocks, cursor)
        && Editable(p, H.Range(cursor, end), IncRef)
        && cache.Abs() == if end == cursor then old(cache.Abs()) else
             var d := EditBlocks(old(cache.Abs()), id, H.Range(cursor, end), IncRef);
             SetPiece(d, id, d.pieces[id].(hashing := true))
  {
    hide CacheInv, Put, Editable, EditAll, Tally, PieceOk, H.RunFrom, H.Range;
    ghost var c := cache.Abs();
    var pe := cache.pieces[id];
    ghost var p := pe;
    if pe.hash.None? || pe.hashing || pe.hash.value.offset >= pe.size { return 0, 0; }
    PieceFacts(c, id);
    CacheFacts(c);
    CursorIn(pe, cache.blockSize);
    cursor := pe.hash.value.offset / cache.blockSize;
    end := cursor;
    RangeNone(p, cursor);
    EditNone(c, id, IncRef);
    var i := cursor;
    while i < |pe.blocks|
      invariant cursor <= i <= |p.blocks| && end == i && |pe.blocks| == |p.blocks|
      invariant H.RunFrom(p.blocks, cursor) == H.RunFrom(p.blocks, i)
      invariant cache.Valid() && id in cache.pieces && cache.pieces[id].hashing == p.hashing
      invariant Editable(p, H.Range(cursor, i), IncRef)
      invariant cache.Abs() == EditBlocks(c, id, H.Range(cursor, i), IncRef)
    {
      RunNext(p.blocks, i);
      SameSlot(c, id, H.Range(cursor, i), i);
      if cache.pieces[id].blocks[i].buf.Null? { break; }
      RangeSnoc(p, cursor, i);
      IncStep(c, id, H.Range(cursor, i), i);
      var _ := cache.IncBlockRefcount(id, i);
      end := end + 1;
      i := i + 1;
    }
    RunNext(p.blocks, i);
    if end == cursor {
      RangeNone(p, cursor);
      EditNone(c, id, IncRef);
      return;
    }
    HashingOn(c, id, cursor, end);
    cache.pieces := cache.pieces[id := cache.pieces[id].(hashing := true)];
  }

  lemma SameSlot(c: Cache, id: PieceId, ks: seq<nat>, k: nat)
    requires CacheInv(c) && id in c.pieces && Editable(c.pieces[id], ks, IncRef) && k < |c.pieces[id].blocks|
    ensures var d := EditBlocks(c, id, ks, IncRef);
      id in d.pieces && |d.pieces[id].blocks| == |c.pieces[id].blocks| && d.pieces[id].blocks[k].buf == c.pieces[id].blocks[k].buf
  {
    hide CacheInv, Put, EditAll, Tally, Editable;
    EditAllLemma(c.pieces[id], ks, IncRef);
    EditEffect(c, id, ks, IncRef);
  }

  lemma RangeNone(p: Piece, from: nat)
    ensures H.Range(from, from) == []
  {}

  lemma CursorIn(p: Piece, blockSize: int)
    requires PieceOk(p, blockSize) && blockSize > 0 && p.hash.Some? && p.hash.value.offset < p.size
    ensures 0 <= p.hash.value.offset / blockSize < |p.blocks|
  {
    hide Tally;
    var o := p.hash.value.offset;
    var q, r := o / blockSize, o % blockSize;
    assert o == q * blockSize + r;
    if q >= |p.blocks| { MulMono(|p.blocks|, q, blockSize); }
    if q <= -1 { MulMono(q, -1, blockSize); }
  }

  lemma HashingOn(c: Cache, id: PieceId, from: nat, end: nat)
    requires CacheInv(c) && id in c.pieces && from < end && Editable(c.pieces[id], H.Range(from, end), IncRef)
    ensures var d := EditBlocks(c, id, H.Range(from, end), IncRef);
      CacheInv(SetPiece(d, id, d.pieces[id].(hashing := true))) && id in d.pieces
  {
    hide CacheInv, Put, EditAll, Tally, PieceOk;
    var ks := H.Range(from, end);
    assert ks[0] == from && CanEdit(IncRef, c.pieces[id].blocks[ks[0]]);
    NotGhost(c, id);
    hide Editable;
    EditKeeps(c, id, ks, IncRef);
    EditEffect(c, id, ks, IncRef);
    var d := EditBlocks(c, id, ks, IncRef);
    PieceFacts(d, id);
    SetPieceKeeps(d, id, d.pieces[id].(hashing := true));
  }

  lemma DecStep(c: Cache, id: PieceId, ks: seq<nat>, i: nat)
    requires CacheInv(c) && id in c.pieces && Editable(c.pieces[id], ks, DecRef) && i < |ks|
    ensures Editable(c.pieces[id], ks[..i], DecRef) && Editable(c.pieces[id], ks[..i + 1], DecRef)
    ensures var d := EditBlocks(c, id, ks[..i], DecRef);
      && CacheInv(d) && id in d.pieces && ks[i] < |d.pieces[id].blocks| && CanEdit(DecRef, d.pieces[id].blocks[ks[i]])
      && Editable(d.pieces[id], [ks[i]], DecRef)
      && EditBlocks(d, id, [ks[i]], DecRef) == EditBlocks(c, id, ks[..i + 1], DecRef)
      && id in EditBlocks(c, id, ks[..i + 1], DecRef).pieces
  {
    hide CacheInv, Put, EditAll, Tally;
    PrefixEditable(c.pieces[id], ks, i, DecRef);
    PrefixEditable(c.pieces[id], ks, i + 1, DecRef);
    assert ks[..i + 1] == ks[..i] + [ks[i]];
    EditAllSnoc(c.pieces[id], ks[..i], ks[i], DecRef);
    EditAllLemma(c.pieces[id], ks[..i], DecRef);
    EditSnoc(c, id, ks[..i], ks[i], DecRef);
    EditKeeps(c, id, ks[..i], DecRef);
    EditEffect(c, id, ks[..i], DecRef);
    EditEffect(c, id, ks[..i + 1], DecRef);
    assert ks[i] !in ks[..i];
    assert CanEdit(DecRef, c.pieces[id].blocks[ks[i]]);
    hide CanEdit, Edited, Editable;
  }

  /** Gives back one reference to each of the listed blocks. */
  method DecBlocks(cache: BlockCache, id: PieceId, ks: seq<nat>)
    requires cache.Valid() && id in cache.pieces && Editable(cache.pieces[id], ks, DecRef)
    modifies cache
    ensures cache.Valid() && cache.Abs() == EditBlocks(old(cache.Abs()), id, ks, DecRef)
  {
    hide CacheInv, Put, Editable, EditAll, Tally, CanEdit;
    ghost var c := cache.Abs();
    EditNone(c, id, DecRef);
    assert ks[..0] == [];
    for i := 0 to |ks|
      invariant cache.Valid() && id in cache.pieces && Editable(c.pieces[id], ks[..i], DecRef)
      invariant cache.Abs() == EditBlocks(c, id, ks[..i], DecRef)
    {
      DecStep(c, id, ks, i);
      cache.DecBlockRefcount(id, ks[i]);
    }
    assert ks[..|ks|] == ks;
  }

  /** kick_hasher from where it takes the mutex again: `offset` is where the hash has
      come to. */
  method KickHasherEnd(cache: BlockCache, id: PieceId, blocks: seq<nat>, offset: int)
    requires cache.Valid() && id in cache.pieces && Editable(cache.pieces[id], blocks, DecRef)
    requires cache.pieces[id].hash.Some? && 0 <= offset <= cache.pieces[id].size
    requires cache.pieces[id].pieceRefcount > 0
    modifies cache
    ensures cache.Valid()
    ensures var q := old(cache.pieces)[id].(hashing := false, hash := Some(old(cache.pieces)[id].hash.value.(offset := offset)));
      && Editable(q, blocks, DecRef)
      && cache.Abs() == EditBlocks(SetPiece(old(cache.Abs()), id, q), id, blocks, DecRef)
  {
    hide CacheInv, Put, EditAll, Tally, PieceOk, CanEdit;
    ghost var c := cache.Abs();
    PieceFacts(c, id);
    NotGhost(c, id);
    var pe := cache.pieces[id];
    var q := pe.(hashing := false, hash := Some(pe.hash.value.(offset := offset)));
    SetPieceKeeps(c, id, q);
    cache.pieces := cache.pieces[id := q];
    hide Editable;
    DecBlocks(cache, id, blocks);
  }

  // ---------------------------------------------------- flush_expired_write_blocks

  /** Pinning changes nothing but the pin counts. */
  ghost predicate OnlyPinned(c: Cache, d: Cache, ids: seq<PieceId>) {
    && d == c.(pieces := d.pieces) && d.pieces.Keys == c.pieces.Keys
    && forall x :: x in c.pieces ==> d.pieces[x] == c.pieces[x].(pieceRefcount := c.pieces[x].pieceRefcount + (if x in ids then 1 else 0))
  }

  predicate Expired(p: Piece, limit: int, now: int) { p.numDirty > 0 && now - p.expire >= limit }

  /** The pieces to flush among the first `n` of a list, in list order. */
  function ExpiredOf(ps: map<PieceId, Piece>, s: seq<PieceId>, n: nat, limit: int, now: int): (r: seq<PieceId>)
    requires n <= |s| && forall x :: x in s ==> x in ps
  {
    if n == 0 then [] else
      var r := ExpiredOf(ps, s, n - 1, limit, now);
      if Expired(ps[s[n - 1]], limit, now) then r + [s[n - 1]] else r
  }

  lemma {:induction false} ExpiredIn(ps: map<PieceId, Piece>, s: seq<PieceId>, n: nat, limit: int, now: int, x: PieceId)
    requires n <= |s| && forall x :: x in s ==> x in ps
    ensures x in ExpiredOf(ps, s, n, limit, now) <==> x in s[..n] && Expired(ps[x], limit, now)
  {
    hide Expired;
    if n > 0 {
      ExpiredIn(ps, s, n - 1, limit, now, x);
      assert s[..n] == s[..n - 1] + [s[n - 1]];
    }
  }

  lemma {:induction false} ExpiredNoDup(ps: map<PieceId, Piece>, s: seq<PieceId>, n: nat, limit: int, now: int)
    requires n <= |s| && NoDup(s) && forall x :: x in s ==> x in ps
    ensures NoDup(ExpiredOf(ps, s, n, limit, now))
  {
    hide Expired;
    if n > 0 {
      ExpiredNoDup(ps, s, n - 1, limit, now);
      ExpiredIn(ps, s, n - 1, limit, now, s[n - 1]);
    }
  }

  /** Nothing at or behind a piece that is too young to flush is old enough. */
  lemma {:induction false} YoungTail(ps: map<PieceId, Piece>, s: seq<PieceId>, i: nat, limit: int, now: int, n: nat)
    requires Ordered(ps, s) && i < |s| && (forall x :: x in s ==> x in ps) && now - ps[s[i]].expire < limit
    requires i <= n <= |s|
    ensures ExpiredOf(ps, s, n, limit, now) == ExpiredOf(ps, s, i, limit, now)
  {
    if n > i {
      YoungTail(ps, s, i, limit, now, n - 1);
      assert ps[s[i]].expire <= ps[s[n - 1]].expire;
    }
  }

  const FLUSH_CAP := 200

  /** Collects and pins the pieces whose dirty blocks have aged beyond `limit`. The walk
      stops at the first piece that is too young. */
  method CollectExpired(cache: BlockCache, limit: int, now: int) returns (toFlush: seq<PieceId>, ghost walked: nat)
    requires cache.Valid()
    modifies cache
    ensures cache.Valid() && |old(cache.lru)| == NUM_LRUS && walked <= |old(cache.lru)[WRITE_LRU]|
    ensures |toFlush| <= FLUSH_CAP && NoDup(toFlush) && forall x :: x in old(cache.lru)[WRITE_LRU] ==> x in old(cache.pieces)
    ensures toFlush == ExpiredOf(old(cache.pieces), old(cache.lru)[WRITE_LRU], walked, limit, now)
    ensures |toFlush| < FLUSH_CAP ==> forall x :: x in old(cache.pieces) && Expired(old(cache.pieces)[x], limit, now) ==> x in toFlush
    ensures OnlyPinned(old(cache.Abs()), cache.Abs(), toFlush)
  {
    hide CacheInv, PieceOk, ExpiredOf, Expired, OnlyPinned, NoDup, Ordered;
    ghost var c := cache.Abs();
    WriteList(c);
    var s := cache.lru[WRITE_LRU];
    toFlush, walked := [], 0;
    ExpiredNone(c, s, limit, now);
    var i := 0;
    ghost var tail := false;
    while i < |s|
      invariant 0 <= i <= |s| && cache.Valid() && |toFlush| < FLUSH_CAP && NoDup(toFlush)
      invariant toFlush == ExpiredOf(c.pieces, s, i, limit, now)
      invariant OnlyPinned(c, cache.Abs(), toFlush) && walked == i
    {
      ExpiredNext(c.pieces, s, i, limit, now);
      PinnedSame(c, cache.Abs(), toFlush, s[i]);
      var e := cache.pieces[s[i]];
      if now - e.expire < limit {
        YoungTail(c.pieces, s, i, limit, now, |s|);
        AllExpired(c, s, limit, now);
        return;
      }
      if e.numDirty == 0 {
        i, walked := i + 1, walked + 1;
        continue;
      }
      PinOne(c, cache.Abs(), toFlush, s[i]);
      assert Expired(c.pieces[s[i]], limit, now) by { ExpiredIs(c.pieces[s[i]], limit, now); }
      cache.pieces := cache.pieces[s[i] := e.(pieceRefcount := e.pieceRefcount + 1)];
      toFlush := toFlush + [s[i]];
      i, walked := i + 1, walked + 1;
      if |toFlush| == FLUSH_CAP { return; }
    }
    AllExpired(c, s, limit, now);
  }

  lemma ExpiredIs(p: Piece, limit: int, now: int)
    requires p.numDirty > 0 && now - p.expire >= limit
    ensures Expired(p, limit, now)
  {}

  lemma WriteList(c: Cache)
    requires CacheInv(c)
    ensures |c.lru| == NUM_LRUS && NoDup(c.lru[WRITE_LRU]) && Ordered(c.pieces, c.lru[WRITE_LRU])
    ensures forall x :: x in c.lru[WRITE_LRU] ==> x in c.pieces
  {
    hide PiecesOk, CountersOk, BufsOk, NoDup, Ordered;
  }

  lemma ExpiredNone(c: Cache, s: seq<PieceId>, limit: int, now: int)
    requires forall x :: x in s ==> x in c.pieces
    ensures ExpiredOf(c.pieces, s, 0, limit, now) == [] && OnlyPinned(c, c, []) && NoDup([])
  {}

  lemma ExpiredNext(ps: map<PieceId, Piece>, s: seq<PieceId>, i: nat, limit: int, now: int)
    requires i < |s| && NoDup(s) && forall x :: x in s ==> x in ps
    ensures s[i] !in ExpiredOf(ps, s, i, limit, now)
    ensures ps[s[i]].numDirty == 0 ==> ExpiredOf(ps, s, i + 1, limit, now) == ExpiredOf(ps, s, i, limit, now)
    ensures ps[s[i]].numDirty > 0 && now - ps[s[i]].expire >= limit ==>
      ExpiredOf(ps, s, i + 1, limit, now) == ExpiredOf(ps, s, i, limit, now) + [s[i]]
    ensures NoDup(ExpiredOf(ps, s, i + 1, limit, now))
  {
    ExpiredNoDup(ps, s, i + 1, limit, now);
    ExpiredIn(ps, s, i, limit, now, s[i]);
  }

  lemma PinnedSame(c: Cache, d: Cache, ids: seq<PieceId>, x: PieceId)
    requires CacheInv(c) && OnlyPinned(c, d, ids) && x in c.pieces && x !in ids
    ensures x in d.pieces && d.pieces[x] == c.pieces[x] && c.pieces[x].numDirty >= 0
  {
    hide CacheInv, PieceOk;
    PieceFacts(c, x);
    DirtyNatural(c.pieces[x], c.blockSize);
  }

  lemma DirtyNatural(p: Piece, blockSize: int)
    requires PieceOk(p, blockSize)
    ensures p.numDirty >= 0
  {
    TallyBounds(p.blocks);
  }

  lemma PinOne(c: Cache, d: Cache, ids: seq<PieceId>, x: PieceId)
    requires CacheInv(d) && OnlyPinned(c, d, ids) && x in c.pieces && x !in ids && c.pieces[x].numDirty > 0
    ensures x in d.pieces && CacheInv(Pin(d, x, 1)) && OnlyPinned(c, Pin(d, x, 1), ids + [x])
  {
    hide CacheInv, PieceOk, OthersShrink, Pin;
    PinnedOne(c, d, ids, x);
    PieceFacts(d, x);
    PinKeeps(d, x, 1);
  }

  lemma PinnedOne(c: Cache, d: Cache, ids: seq<PieceId>, x: PieceId)
    requires OnlyPinned(c, d, ids) && x in c.pieces && x !in ids
    ensures x in d.pieces && d.pieces[x] == c.pieces[x] && OnlyPinned(c, Pin(d, x, 1), ids + [x])
  {
    var e := Pin(d, x, 1);
    forall y | y in c.pieces
      ensures e.pieces[y] == c.pieces[y].(pieceRefcount := c.pieces[y].pieceRefcount + (if y in ids + [x] then 1 else 0))
    {
      assert y in ids + [x] <==> y in ids || y == x;
    }
  }

  /** Every dirty piece is in the write list. */
  lemma AllExpired(c: Cache, s: seq<PieceId>, limit: int, now: int)
    requires CacheInv(c) && |c.lru| == NUM_LRUS && s == c.lru[WRITE_LRU] && forall x :: x in s ==> x in c.pieces
    ensures forall x :: x in c.pieces && Expired(c.pieces[x], limit, now) ==> x in ExpiredOf(c.pieces, s, |s|, limit, now)
  {
    hide CacheInv, PieceOk;
    forall x | x in c.pieces && Expired(c.pieces[x], limit, now) ensures x in ExpiredOf(c.pieces, s, |s|, limit, now) {
      PieceFacts(c, x);
      InOwnList(c, x);
      assert s[..|s|] == s;
      ExpiredIn(c.pieces, s, |s|, limit, now, x);
    }
  }

  lemma InOwnList(c: Cache, x: PieceId)
    requires CacheInv(c) && x in c.pieces
    ensures |c.lru| == NUM_LRUS && 0 <= c.pieces[x].cacheState < NUM_LRUS && x in c.lru[c.pieces[x].cacheState]
  {
    hide PiecesOk, CountersOk, BufsOk, NoDup, SortedByExpire;
  }
}
