/** Runs of the disk threads, from the empty cache, into the states in which the source
    does not do what it takes for granted. */
module ProtocolWitnesses {
  import opened CacheModel
  import opened CacheSpec
  import opened BlockEdits
  import opened CacheOps
  import opened Eviction
  import opened DiskProtocol
  import opened ProtocolFrames
  import opened ProtocolRuns
  import F = FlushSteps
  import S = CacheSteps
  import H = HashSteps
  import R = ReadSteps

  /** A run goes on with one more step. */
  lemma {:induction false} RunsSnoc(s: State, steps: seq<Step>, st: Step)
    requires Inv(s) && Runs(s, steps) && Inv(Run(s, steps)) && Enabled(Run(s, steps), st)
    ensures Runs(s, steps + [st]) && Run(s, steps + [st]) == Next(Run(s, steps), st) && Inv(Next(Run(s, steps), st))
    decreases |steps|
  {
    hide Inv, Enabled, Next;
    var more := steps + [st];
    if steps == [] {
      StepKeeps(s, st);
      assert more[1..] == [];
      assert Run(Next(s, st), []) == Next(s, st);
    } else {
      assert more[0] == steps[0] && more[1..] == steps[1..] + [st];
      StepKeeps(s, steps[0]);
      RunsSnoc(Next(s, steps[0]), steps[1..], st);
    }
  }

  /** An address that no buffer has. */
  lemma {:induction false} FreshAddr(pool: set<nat>) returns (a: nat)
    ensures a !in pool && forall x :: x in pool ==> x < a
  {
    if pool == {} { return 0; }
    var x :| x in pool;
    var b := FreshAddr(pool - {x});
    a := if x < b then b else x + 1;
    forall y | y in pool ensures y < a {
      if y != x { assert y in pool - {x}; }
    }
  }

  /** A buffer fresh from the pool is in no piece. */
  lemma TakenOutside(s: State, addr: nat)
    requires Inv(s) && addr !in s.c.pool
    ensures Enabled(s, TakeBuffer(addr)) && Next(s, TakeBuffer(addr)) == s.(c := s.c.(pool := s.c.pool + {addr}))
    ensures Outside(Next(s, TakeBuffer(addr)).c, addr)
  {
    H.InInv(s);
    TakenFresh(s.c, addr);
    hide Inv, CacheInv, Outside;
  }

  lemma TakenFresh(c: Cache, addr: nat)
    requires CacheInv(c) && addr !in c.pool
    ensures Outside(c.(pool := c.pool + {addr}), addr)
  {
    hide CountersOk, ListsOk, SortedByExpire, PiecesOk, Addrs;
  }

  // ------------------------------------------------- what single steps do

  /** add_dirty_block when there is room. */
  lemma WriteEffect(s: State, id: PieceId, size: int, block: nat, buf: Buf, job: WriteJob, now: int) returns (st: Step)
    requires Inv(s) && S.CanAdd(s.c, id, size, block, buf, now) && job.block == block && job.id !in s.hungAt
    ensures Enabled(s, st)
    ensures var t := Next(s, st); var p := if id in s.c.pieces then s.c.pieces[id] else NewPiece(size, s.c.blockSize, 0, WRITE_LRU, now);
      && t.fl == s.fl && t.hungAt.Keys == s.hungAt.Keys + {job.id} && t.c.blockSize == s.c.blockSize && t.c.clock <= now
      && id in t.c.pieces && block < |p.blocks|
      && t.c.pieces[id] == p.(blocks := p.blocks[block := Block(buf, 0, true, false)], jobs := p.jobs + [job], markedForEviction := false,
           hash := if block == 0 && p.hash.None? && !p.hashingDone then Some(PartialHash(0, [])) else p.hash,
           numBlocks := t.c.pieces[id].numBlocks, numDirty := t.c.pieces[id].numDirty, pinned := t.c.pieces[id].pinned,
           cacheState := t.c.pieces[id].cacheState, expire := t.c.pieces[id].expire)
  {
    hide Inv, CacheInv, AllocatePiece, NewPiece, Outside, Evicts, AddDirty, OthersShrink, BlocksFor;
    var mid := AllocatePiece(s.c, id, size, 0, WRITE_LRU, now);
    st := Write(id, size, 0, block, buf, job, mid, now);
    S.AllocatedFacts(s.c, id, size, 0, block, buf, now);
    AllocateEffect(s.c, id, size, 0, WRITE_LRU, now);
    S.NewBlocks(size, s.c.blockSize, 0, WRITE_LRU, now);
    EvictsRefl(mid);
    S.AddDirtyEffect(mid, id, block, buf, job, now);
    SameBlockSize(s.c, mid, id);
    SameBlockSize(mid, AddDirty(mid, id, block, buf, job, now), id);
    AddedClock(mid, id, block, buf, job, now);
  }

  lemma AddedClock(c: Cache, id: PieceId, block: nat, buf: Buf, job: WriteJob, now: int)
    requires S.Ready(c, id, block, buf, now)
    ensures AddDirty(c, id, block, buf, job, now).clock == now
  {
    hide CacheInv, Replaced, Relink, Outside;
  }

  /** build_iovec and flush_range up to where it drops the mutex. */
  lemma FlushEffect(s: State, id: PieceId, end: nat, pinned: bool)
    requires Inv(s) && F.CanFlush(s, id, end)
    ensures Enabled(s, Flush(id, end, pinned))
    ensures var t := Next(s, Flush(id, end, pinned)); var p := s.c.pieces[id]; var ks := F.Selected(p.blocks, end);
      && t.fl == s.fl + [Flight(Flushing(0, false, |s.log|, pinned), id, ks, F.BufsAt(p.blocks, ks))]
      && t.hungAt == s.hungAt && t.c.blockSize == s.c.blockSize && t.c.clock == s.c.clock && id in t.c.pieces
      && Editable(p, ks, BeginFlush)
      && t.c.pieces[id] == EditAll(p, ks, BeginFlush).(pieceRefcount := p.pieceRefcount + Pins(pinned))
  {
    hide CacheInv, Put, EditAll, Local, LogOk, Ledger, F.Selected, F.BufsAt;
    var p := s.c.pieces[id];
    var ks := F.Selected(p.blocks, end);
    F.SelectedEditable(p, end);
    F.EditEffect(s.c, id, ks, BeginFlush);
    EditAllPin(p, ks);
    hide Editable;
  }

  lemma EditAllPin(p: Piece, ks: seq<nat>)
    requires Editable(p, ks, BeginFlush)
    ensures EditAll(p, ks, BeginFlush).pieceRefcount == p.pieceRefcount
  {
    EditAllLemma(p, ks, BeginFlush);
    hide EditAll, Editable;
  }

  /** The locked end of a flush whose caller has pinned a piece that is not marked. */
  lemma FlushedEffect(s: State, i: nat, now: int) returns (st: Step)
    requires Inv(s) && i < |s.fl| && s.fl[i].kind.Flushing? && s.fl[i].kind.done == |s.fl[i].blocks| && s.fl[i].kind.pinned
    requires now >= s.c.clock && s.fl[i].id in s.c.pieces && !s.c.pieces[s.fl[i].id].markedForEviction
    ensures Enabled(s, st)
    ensures var t := Next(s, st); var f := s.fl[i]; var p := s.c.pieces[f.id];
      && t.fl == Drop(s.fl, i) && t.hungAt == s.hungAt && t.c.blockSize == s.c.blockSize && t.c.clock <= now && f.id in t.c.pieces
      && Editable(p, f.blocks, EndFlush)
      && var r := EditAll(p, f.blocks, EndFlush);
         t.c.pieces[f.id] == r.(pieceRefcount := p.pieceRefcount - 2, jobs := F.Remaining(p.jobs, r.blocks, f.kind.failed),
           cacheState := t.c.pieces[f.id].cacheState, expire := t.c.pieces[f.id].expire)
  {
    hide Inv, CacheInv, Evicts, EditAll, OthersShrink, MaybeFree, F.Stays, F.Landed, F.Unfreed, F.Completions, F.Remaining, Editable;
    var f := s.fl[i];
    F.FlushEnabled(s, i, now);
    H.InInv(s);
    F.FlightPins(s, i);
    F.LandedKeeps(s.c, f.id, f.blocks, f.kind.failed, now);
    F.UnfreedKeeps(s.c, f.id, f.blocks, f.kind.failed, now);
    LandedClock(s.c, f.id, f.blocks, f.kind.failed, now);
    var landed := F.Landed(s.c, f.id, f.blocks, f.kind.failed, now);
    SameBlockSize(s.c, landed, f.id);
    Unmarked(s.c.pieces[f.id], f.blocks);
    F.EditAllFields(s.c.pieces[f.id], f.blocks);
    F.PinnedNotFreed(landed, f.id);
    EvictsRefl(landed);
    st := Flushed(i, landed, now);
    NotGhost(landed, f.id);
    PinKeeps(landed, f.id, -1);
    NotFreed(Pin(landed, f.id, -1), f.id);
  }

  lemma Unmarked(p: Piece, ks: seq<nat>)
    requires Editable(p, ks, EndFlush) && !p.markedForEviction
    ensures !EditAll(p, ks, EndFlush).markedForEviction
  {
    EditAllLemma(p, ks, EndFlush);
    hide EditAll, Editable;
  }

  lemma NotFreed(c: Cache, id: PieceId)
    requires CacheInv(c) && id in c.pieces && !c.pieces[id].markedForEviction
    ensures MaybeFree(c, id) == c
  {
    hide CacheInv;
  }

  lemma LandedClock(c: Cache, id: PieceId, ks: seq<nat>, failed: bool, now: int)
    requires F.CanLand(c, id, ks, now)
    ensures F.Unfreed(c, id, ks, failed, now).clock <= now
  {
    hide CacheInv, EditAll, Editable, Relink, F.Cleared;
    F.ClearedFacts(c, id, ks, now);
    F.CleanedKeeps(c, id, ks, now);
  }

  /** mark_for_eviction of a pinned piece without jobs: unreferenced blocks go. */
  lemma MarkEffect(s: State, id: PieceId)
    requires Inv(s) && id in s.c.pieces && s.c.pieces[id].jobs == [] && s.c.pieces[id].pieceRefcount > 0
    ensures Enabled(s, Mark(id, DisallowGhost))
    ensures var t := Next(s, Mark(id, DisallowGhost)); var p := s.c.pieces[id];
      && t == s.(c := t.c) && t.c.blockSize == s.c.blockSize && t.c.clock == s.c.clock && id in t.c.pieces
      && var q := t.c.pieces[id];
         && q.markedForEviction && q.markedForDeletion && q.jobs == [] && q.hash == p.hash && q.pieceRefcount == p.pieceRefcount
  {
    hide Inv, CacheInv, EvictBlocks;
    H.InInv(s);
    EvictBlocksLemma(s.c, id);
  }

  // -------------------------------------------------------- a flush loses its piece

  const ID := PieceId(0, 0)

  /** The piece with one-byte blocks `bs`, and the flights on it. */
  ghost predicate Looks(s: State, bs: seq<Block>, jobs: seq<WriteJob>, pins: int, fl: seq<Flight>) {
    && Inv(s) && s.c.blockSize == 1 && s.c.clock <= 0 && ID in s.c.pieces && s.fl == fl
    && var p := s.c.pieces[ID];
       p.blocks == bs && p.jobs == jobs && p.pieceRefcount == pins && p.hash == Some(PartialHash(0, [])) && !p.hashingDone && !p.markedForEviction
  }

  const JOB0 := WriteJob(0, 0)
  const JOB1 := WriteJob(1, 1)

  function Dirty(addr: nat): Block { Block(Buf(addr, 0), 0, true, false) }

  function Busy(addr: nat): Block { Block(Buf(addr, 0), 1, true, true) }

  function Clean(addr: nat): Block { Block(Buf(addr, 0), 0, false, false) }

  lemma FirstWrite(s: State, a: nat) returns (st: Step)
    requires Inv(s) && Outside(s.c, a) && s.c.blockSize == 1 && s.c.clock <= 0 && ID !in s.c.pieces && s.fl == [] && s.hungAt.Keys == {}
    ensures Enabled(s, st) && Looks(Next(s, st), [Dirty(a), EMPTY], [JOB0], 0, []) && Next(s, st).hungAt.Keys == {0}
  {
    hide Inv, Enabled, Next, Outside, CacheInv, NewPiece, BlocksFor;
    H.InInv(s);
    CacheFacts(s.c);
    NewIsEmpty();
    S.NewBlocks(2, 1, 0, WRITE_LRU, 0);
    st := WriteEffect(s, ID, 2, 0, Buf(a, 0), JOB0, 0);
    StepKeeps(s, st);
  }

  lemma SecondWrite(s: State, a: nat, b: nat) returns (st: Step)
    requires Looks(s, [Dirty(a), EMPTY], [JOB0], 0, []) && Outside(s.c, b) && s.hungAt.Keys == {0}
    ensures Enabled(s, st) && Looks(Next(s, st), [Dirty(a), Dirty(b)], [JOB0, JOB1], 0, [])
  {
    hide Inv, Enabled, Next, Outside, CacheInv, NewPiece, BlocksFor;
    H.InInv(s);
    CacheFacts(s.c);
    PieceFacts(s.c, ID);
    st := WriteEffect(s, ID, 2, 1, Buf(b, 0), JOB1, 0);
    StepKeeps(s, st);
  }

  lemma NewIsEmpty()
    ensures BlocksFor(2, 1) == 2 && NewPiece(2, 1, 0, WRITE_LRU, 0).blocks == [EMPTY, EMPTY]
    ensures !NewPiece(2, 1, 0, WRITE_LRU, 0).hashingDone
  {}

  /** Two blocks are written into the cache. */
  lemma TwoWritten() returns (steps: seq<Step>, a: nat, b: nat)
    ensures Inv(Initial(1, 1, 0)) && Runs(Initial(1, 1, 0), steps)
    ensures Looks(Run(Initial(1, 1, 0), steps), [Dirty(a), Dirty(b)], [JOB0, JOB1], 0, [])
  {
    hide Inv, Enabled, Next, Outside;
    InitialInv(1, 1, 0);
    var s0 := Initial(1, 1, 0);
    a := 0;
    TakenOutside(s0, a);
    steps := Then(s0, [], TakeBuffer(a));
    var st := FirstWrite(Run(s0, steps), a);
    steps := Then(s0, steps, st);
    var s2 := Run(s0, steps);
    b := FreshAddr(s2.c.pool);
    TakenOutside(s2, b);
    steps := Then(s0, steps, TakeBuffer(b));
    st := SecondWrite(Run(s0, steps), a, b);
    steps := Then(s0, steps, st);
  }

  /** The run goes on. */
  lemma Then(s: State, steps: seq<Step>, st: Step) returns (more: seq<Step>)
    requires Inv(s) && Runs(s, steps) && Inv(Run(s, steps)) && Enabled(Run(s, steps), st)
    ensures Runs(s, more) && Run(s, more) == Next(Run(s, steps), st) && Inv(Run(s, more))
  {
    hide Inv, Enabled, Next, Run, Runs;
    RunsSnoc(s, steps, st);
    more := steps + [st];
  }

  /** A flight of a flush that has one block to write. */
  function Flush1(done: nat, failed: bool, mark: nat, pinned: bool, k: nat, addr: nat): Flight {
    Flight(Flushing(done, failed, mark, pinned), ID, [k], [Buf(addr, 0)])
  }

  /** A flush that finds one block to write. */
  lemma FlushOne(s: State, bs: seq<Block>, jobs: seq<WriteJob>, pins: int, fl: seq<Flight>, end: nat, k: nat, addr: nat, pinned: bool)
    requires Looks(s, bs, jobs, pins, fl) && k < |bs| && end <= |bs| && bs[k] == Dirty(addr) && F.Selected(bs, end) == [k]
    ensures var st := Flush(ID, end, pinned);
      Enabled(s, st) && Looks(Next(s, st), bs[k := Busy(addr)], jobs, pins + Pins(pinned), fl + [Flush1(0, false, |s.log|, pinned, k, addr)])
  {
    hide Inv, Enabled, Next, EditAll, F.Selected;
    CanFlushOne(s, end, k);
    FlushEffect(s, ID, end, pinned);
    BusyBlock(s.c.pieces[ID], k, addr);
    hide Editable;
    StepKeeps(s, Flush(ID, end, pinned));
  }

  lemma CanFlushOne(s: State, end: nat, k: nat)
    requires ID in s.c.pieces && end <= |s.c.pieces[ID].blocks| && F.Selected(s.c.pieces[ID].blocks, end) == [k]
    ensures F.CanFlush(s, ID, end)
  {
    hide F.Selected;
  }

  lemma BusyBlock(p: Piece, k: nat, addr: nat)
    requires k < |p.blocks| && p.blocks[k] == Dirty(addr)
    ensures Editable(p, [k], BeginFlush) && F.BufsAt(p.blocks, [k]) == [Buf(addr, 0)]
    ensures var q := EditAll(p, [k], BeginFlush);
      q.blocks == p.blocks[k := Busy(addr)] && q == p.(blocks := q.blocks, numBlocks := q.numBlocks, numDirty := q.numDirty,
                                                       pinned := q.pinned, refcount := q.refcount)
  {
    EditAllLemma(p, [k], BeginFlush);
    hide EditAll;
    assert forall i :: 0 <= i < |p.blocks| ==> (i in [k] <==> i == k);
  }

  lemma SelectsOne(bs: seq<Block>, end: nat, k: nat)
    requires k < end <= |bs| && end <= 2 && bs[k].buf.Buf? && bs[k].dirty && !bs[k].pending
    requires forall i :: 0 <= i < end && i != k ==> bs[i].pending
    ensures F.Selected(bs, end) == [k]
  {
    assert F.Selected(bs, 0) == [];
    if end == 2 { assert F.Selected(bs, 1) == if k == 0 then [0] else []; }
  }

  /** The only writev of such a flight. */
  lemma WriteOne(s: State, i: nat, mark: nat, pinned: bool, k: nat, addr: nat, ok: bool)
    requires Inv(s) && i < |s.fl| && s.fl[i] == Flush1(0, false, mark, pinned, k, addr)
    ensures Enabled(s, Writev(i, ok))
    ensures var t := Next(s, Writev(i, ok)); t.c == s.c && t.fl == s.fl[i := Flush1(1, !ok, mark, pinned, k, addr)]
  {
    hide Inv;
    assert F.RunEnd([k], 1) == 1;
  }

  /** The first flush fails, and with it the jobs of both blocks. */
  lemma FirstFails(s: State, a: nat, b: nat, mark: nat, y: Flight) returns (st: Step)
    requires Looks(s, [Busy(a), Busy(b)], [JOB0, JOB1], 3, [Flush1(1, true, mark, true, 0, a), y])
    ensures Enabled(s, st) && Looks(Next(s, st), [Clean(a), Busy(b)], [], 1, [y])
  {
    hide Inv, Enabled, Next, EditAll;
    var p := s.c.pieces[ID];
    st := FlushedEffect(s, 0, 0);
    EditAllLemma(p, [0], EndFlush);
    hide Editable;
    StepKeeps(s, st);
    assert EditAll(p, [0], EndFlush).blocks == [Clean(a), Busy(b)];
    assert Drop(s.fl, 0) == [y];
  }

  /** The locked end of flight `i` would find that its piece is gone: iovec_flushed goes
      on to look at the jobs of an entry that blocks_flushed has erased. */
  ghost predicate Loses(s: State, i: nat) {
    && i < |s.fl| && s.fl[i].kind.Flushing? && !s.fl[i].kind.pinned && s.fl[i].kind.done == |s.fl[i].blocks| && !s.fl[i].kind.failed
    && F.CanLand(s.c, s.fl[i].id, s.fl[i].blocks, s.c.clock) && !F.Stays(s.c, s.fl[i].id, s.fl[i].blocks, s.c.clock)
  }

  lemma MarkedLoses(s: State, a: nat, b: nat, mark: nat) returns (steps: seq<Step>)
    requires Looks(s, [Clean(a), Busy(b)], [], 1, [Flush1(0, false, mark, false, 1, b)])
    ensures Runs(s, steps) && Loses(Run(s, steps), 0)
  {
    hide Inv, Enabled, Next, F.Stays, F.CanLand;
    MarkEffect(s, ID);
    var m := Mark(ID, DisallowGhost);
    var t := Next(s, m);
    steps := Then(s, [], m);
    WriteOne(t, 0, mark, false, 1, b, true);
    steps := Then(s, steps, Writev(0, true));
    F.FlushStays(Run(s, steps), 0, s.c.clock);
  }

  lemma {:induction false} RunsJoin(s: State, first: seq<Step>, rest: seq<Step>)
    requires Inv(s) && Runs(s, first) && Inv(Run(s, first)) && Runs(Run(s, first), rest)
    ensures Runs(s, first + rest) && Run(s, first + rest) == Run(Run(s, first), rest)
    decreases |first|
  {
    hide Inv, Enabled, Next;
    var all := first + rest;
    if first == [] {
      assert all == rest;
    } else {
      assert all[0] == first[0] && all[1..] == first[1..] + rest;
      StepKeeps(s, first[0]);
      RunsJoin(Next(s, first[0]), first[1..], rest);
    }
  }

  /** A flush without a pin of its caller can lose its piece: two blocks are dirty, a
      pinned flush takes the first and an unpinned one the second; the write of the first
      fails and takes all jobs of the piece with it; the piece is marked for eviction;
      the write of the second succeeds. */
  lemma FlushLosesPiece() returns (steps: seq<Step>)
    ensures Inv(Initial(1, 1, 0)) && Runs(Initial(1, 1, 0), steps) && Loses(Run(Initial(1, 1, 0), steps), 0)
  {
    hide Inv, Enabled, Next, Runs, Run, Loses, Looks;
    var s0 := Initial(1, 1, 0);
    var a, b;
    steps, a, b := TwoWritten();
    var s := Run(s0, steps);
    var rest := UpToFailure(s, a, b);
    LooksInv(s, [Dirty(a), Dirty(b)], [JOB0, JOB1], 0, []);
    RunsJoin(s0, steps, rest);
    steps := steps + rest;
  }

  lemma LooksInv(s: State, bs: seq<Block>, jobs: seq<WriteJob>, pins: int, fl: seq<Flight>)
    requires Looks(s, bs, jobs, pins, fl)
    ensures Inv(s)
  {
    hide Inv;
  }

  lemma UpToFailure(s: State, a: nat, b: nat) returns (steps: seq<Step>)
    requires Looks(s, [Dirty(a), Dirty(b)], [JOB0, JOB1], 0, [])
    ensures Inv(s) && Runs(s, steps) && Loses(Run(s, steps), 0)
  {
    hide Inv, Enabled, Next, Loses, Looks, Runs, Run;
    LooksInv(s, [Dirty(a), Dirty(b)], [JOB0, JOB1], 0, []);
    var m, n;
    steps, m, n := BothFlushing(s, a, b);
    var rest := FailsThenLoses(Run(s, steps), a, b, m, n);
    LooksInv(Run(s, steps), [Busy(a), Busy(b)], [JOB0, JOB1], 3, [Flush1(0, false, m, true, 0, a), Flush1(0, false, n, false, 1, b)]);
    RunsJoin(s, steps, rest);
    steps := steps + rest;
  }

  /** Each block is in the hands of a flush. */
  lemma BothFlushing(s: State, a: nat, b: nat) returns (steps: seq<Step>, m: nat, n: nat)
    requires Looks(s, [Dirty(a), Dirty(b)], [JOB0, JOB1], 0, [])
    ensures Inv(s) && Runs(s, steps)
    ensures Looks(Run(s, steps), [Busy(a), Busy(b)], [JOB0, JOB1], 3, [Flush1(0, false, m, true, 0, a), Flush1(0, false, n, false, 1, b)])
  {
    hide Inv, Enabled, Next, Looks, Runs, Run, F.Selected;
    LooksInv(s, [Dirty(a), Dirty(b)], [JOB0, JOB1], 0, []);
    NoStepsYet(s);
    SelectsOne([Dirty(a), Dirty(b)], 1, 0);
    FlushOne(s, [Dirty(a), Dirty(b)], [JOB0, JOB1], 0, [], 1, 0, a, true);
    m := |s.log|;
    steps := Then(s, [], Flush(ID, 1, true));
    var t := Run(s, steps);
    var x := Flush1(0, false, m, true, 0, a);
    assert [Dirty(a), Dirty(b)][0 := Busy(a)] == [Busy(a), Dirty(b)] && [] + [x] == [x];
    SelectsOne([Busy(a), Dirty(b)], 2, 1);
    FlushOne(t, [Busy(a), Dirty(b)], [JOB0, JOB1], 2, [x], 2, 1, b, false);
    n := |t.log|;
    steps := Then(s, steps, Flush(ID, 2, false));
    assert [Busy(a), Dirty(b)][1 := Busy(b)] == [Busy(a), Busy(b)];
    assert [x] + [Flush1(0, false, n, false, 1, b)] == [x, Flush1(0, false, n, false, 1, b)];
  }

  lemma FailsThenLoses(s: State, a: nat, b: nat, m: nat, n: nat) returns (steps: seq<Step>)
    requires Looks(s, [Busy(a), Busy(b)], [JOB0, JOB1], 3, [Flush1(0, false, m, true, 0, a), Flush1(0, false, n, false, 1, b)])
    ensures Inv(s) && Runs(s, steps) && Loses(Run(s, steps), 0)
  {
    hide Inv, Enabled, Next, Loses, Runs, Run;
    var y := Flush1(0, false, n, false, 1, b);
    WriteOne(s, 0, m, true, 0, a, false);
    assert s.fl[0 := Flush1(1, true, m, true, 0, a)] == [Flush1(1, true, m, true, 0, a), y];
    NoStepsYet(s);
    steps := Then(s, [], Writev(0, false));
    var t := Run(s, steps);
    var st := FirstFails(t, a, b, m, y);
    hide Looks;
    steps := Then(s, steps, st);
    var rest := MarkedLoses(Run(s, steps), a, b, n);
    RunsJoin(s, steps, rest);
    steps := steps + rest;
  }

  lemma NoStepsYet(s: State)
    requires Inv(s)
    ensures Runs(s, []) && Run(s, []) == s
  {
    hide Inv, Enabled, Next;
  }

  // ----------------------------------------------------- a read misses its own block

  /** Two bytes from the middle of a block of two bytes. */
  const JOB := ReadJob(0, ID, 1, 2, false, false, 0)

  /** The job is the only one, issued for a piece without blocks. */
  ghost predicate JustIssued(s: State) {
    && Inv(s) && s.c.blockSize == 2 && s.c.clock <= 0 && ID in s.c.pieces && s.c.pieces[ID].blocks == [EMPTY, EMPTY]
    && s.fl == [Flight(Reading(JOB), ID, [], [])]
  }

  lemma Issues(s: State)
    requires Inv(s) && s.c.blockSize == 2 && s.c.clock <= 0 && s.c.pieces.Keys == {} && s.fl == [] && s.submitted == multiset{}
    ensures Enabled(s, Read(JOB, 4, 0)) && JustIssued(Next(s, Read(JOB, 4, 0)))
  {
    hide Inv, CacheInv, AllocatePiece, NewPiece, BlocksFor, JobFits;
    var st := Read(JOB, 4, 0);
    H.InInv(s);
    CacheFacts(s.c);
    JobFitsFour();
    assert s.c.pieces == map[];
    R.PrepKeeps(s, JOB, 4, 0);
    AllocateEffect(s.c, ID, 4, 0, READ_LRU1, 0);
    AllocatedFields(s.c, 4);
    assert Next(s, st) == R.Enqueued(s.(c := AllocatePiece(s.c, ID, 4, 0, READ_LRU1, 0)), JOB);
  }

  lemma JobFitsFour()
    ensures BlocksFor(4, 2) == 2 && JobFits(JOB, ID, 2, 2) && BlocksToRead(JOB, 2) == 2 && FirstBlock(JOB, 2) == 0
    ensures R.PadJob(JOB, 2, 1, 2) == 1
  {}

  lemma AllocatedFields(c: Cache, size: int)
    requires |c.lru| == NUM_LRUS && c.blockSize == 2 && size == 4 && ID !in c.pieces
    ensures var d := AllocatePiece(c, ID, size, 0, READ_LRU1, 0);
      && ID in d.pieces && d.blockSize == 2 && d.clock == 0
      && d.pieces[ID].blocks == [EMPTY, EMPTY] && !d.pieces[ID].outstandingRead
  {}

  /** A read that needs two blocks, with a read-ahead of one block, misses the cache when
      it looks for what it has just read: only its first block was read. */
  lemma OwnReadMisses() returns (steps: seq<Step>, a: nat)
    ensures Inv(Initial(2, 1, 0)) && Runs(Initial(2, 1, 0), steps)
    ensures var s := Run(Initial(2, 1, 0), steps);
      && Inv(s) && R.CanReadDone(s, 0, 1, [Buf(a, 0)], 0) && s.fl[0].kind.job == JOB
      && R.CanStore(R.Arrived(s, 0), 0, JOB, [Buf(a, 0)], 0)
      && var t := R.Stored(R.Arrived(s, 0), 0, JOB, [Buf(a, 0)], 0);
         R.CanTry(t.c, JOB, 0) && R.TryRead(t.c, JOB, 0).1.Miss?
  {
    hide Inv, Enabled, Next, Outside, R.CanStore, R.Stored, R.TryRead, R.CanTry, R.PadJob, BlocksToRead, FirstBlock, R.Arrived, Runs, Run;
    InitialInv(2, 1, 0);
    var s0 := Initial(2, 1, 0);
    NoStepsYet(s0);
    Issues(s0);
    steps := Then(s0, [], Read(JOB, 4, 0));
    var s := Run(s0, steps);
    a := FreshAddr(s.c.pool);
    TakenOutside(s, a);
    steps := Then(s0, steps, TakeBuffer(a));
    s := Run(s0, steps);
    JobFitsFour();
    R.OwnReadServed(s, 0, 1, [Buf(a, 0)], 0);
  }
}
