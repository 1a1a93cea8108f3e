/** The steps that write dirty blocks to disk: flush_range and what it calls. */
module FlushSteps {
  import opened CacheModel
  import opened CacheSpec
  import opened BlockEdits
  import opened CacheOps
  import opened Eviction
  import opened DiskProtocol
  import opened ProtocolFrames

  // -------------------------------------------------------------- build_iovec

  /** The dirty blocks below `n` that nobody is writing yet, in index order. */
  function Selected(bs: seq<Block>, n: nat): (ks: seq<nat>)
    requires n <= |bs|
    ensures forall i :: 0 <= i < |ks| ==> ks[i] < n && bs[ks[i]].buf.Buf? && bs[ks[i]].dirty && !bs[ks[i]].pending
    ensures forall i, j :: 0 <= i < j < |ks| ==> ks[i] < ks[j]
    ensures forall k :: 0 <= k < n && bs[k].buf.Buf? && bs[k].dirty && !bs[k].pending ==> k in ks
  {
    if n == 0 then [] else
      var ks := Selected(bs, n - 1);
      var b := bs[n - 1];
      if b.buf.Null? || b.pending || !b.dirty then ks else ks + [n - 1]
  }

  lemma SelectedEditable(p: Piece, n: nat)
    requires n <= |p.blocks|
    ensures Editable(p, Selected(p.blocks, n), BeginFlush)
  {}

  function BufsAt(bs: seq<Block>, ks: seq<nat>): seq<Buf>
    requires forall i :: 0 <= i < |ks| ==> ks[i] < |bs|
  {
    seq(|ks|, i requires 0 <= i < |ks| => bs[ks[i]].buf)
  }

  /** There is something to write below `end`. */
  ghost predicate CanFlush(s: State, id: PieceId, end: nat) {
    && id in s.c.pieces && end <= |s.c.pieces[id].blocks|
    && Selected(s.c.pieces[id].blocks, end) != []
  }

  /** The blocks below `end` are marked as being written, and the entry is pinned by
      flush_range and, unless it was called without, by its caller. */
  ghost function FlushStart(s: State, id: PieceId, end: nat, pinned: bool): State
    requires CanFlush(s, id, end)
  {
    var p := s.c.pieces[id];
    var ks := Selected(p.blocks, end);
    SelectedEditable(p, end);
    var d := EditBlocks(s.c, id, ks, BeginFlush);
    s.(c := Pin(d, id, Pins(pinned)), fl := s.fl + [Flight(Flushing(0, false, |s.log|, pinned), id, ks, BufsAt(p.blocks, ks))])
  }

  lemma FlushStartLocal(p: Piece, q: Piece, id: PieceId, ks: seq<nat>, pinned: bool, fl: seq<Flight>, log: seq<Event>,
                        hungAt: map<nat, nat>, blockSize: int)
    requires Local(p, id, fl, log, hungAt, blockSize) && Editable(p, ks, BeginFlush) && ks != []
    requires q == EditAll(p, ks, BeginFlush).(pieceRefcount := p.pieceRefcount + Pins(pinned))
    ensures Local(q, id, fl + [Flight(Flushing(0, false, |log|, pinned), id, ks, BufsAt(p.blocks, ks))], log, hungAt, blockSize)
  {
    hide EditAll, WroteSince, Loads;
    EditAllLemma(p, ks, BeginFlush);
    var f := Flight(Flushing(0, false, |log|, pinned), id, ks, BufsAt(p.blocks, ks));
    var gl := fl + [f];
    forall k | 0 <= k < |q.blocks| ensures Matches(q, k, Loads(gl, id, k)) {
      LoadsSnoc(fl, f, id, k);
      assert Matches(p, k, Loads(fl, id, k));
      if k in ks {
        var i :| 0 <= i < |ks| && ks[i] == k;
        assert CanEdit(BeginFlush, p.blocks[ks[i]]);
      }
    }
    assert Holds(f, q);
    forall i | 0 <= i < |fl| && fl[i].id == id ensures FlightOk(fl[i], q, log, hungAt, blockSize) {
      assert FlightOk(fl[i], p, log, hungAt, blockSize);
      HoldsSame(fl[i], p, q);
    }
  }

  lemma HoldsSame(f: Flight, p: Piece, q: Piece)
    requires Holds(f, p) && |q.blocks| == |p.blocks|
    requires forall k :: 0 <= k < |p.blocks| ==> q.blocks[k].buf == p.blocks[k].buf
    ensures Holds(f, q)
  {}

  lemma FlushStartKeeps(s: State, id: PieceId, end: nat, pinned: bool)
    requires Inv(s) && CanFlush(s, id, end)
    ensures Inv(FlushStart(s, id, end, pinned))
  {
    hide CacheInv, Local, LogOk, OthersShrink, SameElsewhere, Issued, Put, EditAll, Editable;
    var p := s.c.pieces[id];
    var ks := Selected(p.blocks, end);
    SelectedEditable(p, end);
    EditKeeps(s.c, id, ks, BeginFlush);
    var d := EditBlocks(s.c, id, ks, BeginFlush);
    EditEffect(s.c, id, ks, BeginFlush);
    PieceFacts(s.c, id);
    assert p.blocks[ks[0]].buf.Buf?;
    NotGhost(s.c, id);
    PinKeeps(d, id, Pins(pinned));
    var t := FlushStart(s, id, end, pinned);
    OthersSame(s.c, t.c, id);
    var f := t.fl[|s.fl|];
    ElsewhereSnoc(s.fl, f);
    FlushStartLocal(p, t.c.pieces[id], id, ks, pinned, s.fl, s.log, s.hungAt, s.c.blockSize);
    forall j: ReadJob { IssuedSnoc(s.fl, f, j); }
    Assemble(s, t, id);
  }

  lemma EditEffect(c: Cache, id: PieceId, ks: seq<nat>, e: Edit)
    requires CacheInv(c) && id in c.pieces && Editable(c.pieces[id], ks, e)
    ensures var d := EditBlocks(c, id, ks, e); var p, q := c.pieces[id], d.pieces[id];
      && d.pieces == c.pieces[id := q] && q == EditAll(p, ks, e) && d.blockSize == c.blockSize && d.clock == c.clock && d.lru == c.lru
      && q == p.(blocks := q.blocks, numBlocks := q.numBlocks, numDirty := q.numDirty, pinned := q.pinned, refcount := q.refcount)
  {
    EditAllLemma(c.pieces[id], ks, e);
    hide CacheInv, EditAll, Tally, Addrs, Editable;
  }

  // -------------------------------------------------------------- flush_iovec

  /** Where the run of consecutive block indices that starts before `e` stops. */
  function RunEnd(ks: seq<nat>, e: nat): (r: nat)
    requires 0 < e <= |ks|
    ensures e <= r <= |ks|
    decreases |ks| - e
  {
    if e < |ks| && ks[e] == ks[e - 1] + 1 then RunEnd(ks, e + 1) else e
  }

  /** Within a run the indices are consecutive, and it stops only where they are not. */
  lemma {:induction false} RunEndLemma(ks: seq<nat>, e: nat, i: nat)
    requires 0 < e <= |ks|
    ensures e <= i < RunEnd(ks, e) ==> ks[i] == ks[i - 1] + 1
    ensures var r := RunEnd(ks, e); r < |ks| ==> ks[r] != ks[r - 1] + 1
    decreases |ks| - e
  {
    if e < |ks| && ks[e] == ks[e - 1] + 1 { RunEndLemma(ks, e + 1, i); }
  }

  /** The events of one successful writev of the flight's blocks `a` up to `b`. */
  function RunEvents(f: Flight, a: nat, b: nat): seq<Event>
    requires a <= b <= |f.blocks| && |f.blocks| == |f.bufs| && forall i :: 0 <= i < |f.bufs| ==> f.bufs[i].Buf?
  {
    seq(b - a, i requires 0 <= i < b - a => Wrote(f.id, f.blocks[a + i], f.bufs[a + i].data))
  }

  ghost predicate CanWrite(s: State, i: nat) {
    && i < |s.fl| && s.fl[i].kind.Flushing? && s.fl[i].kind.done < |s.fl[i].blocks|
    && |s.fl[i].blocks| == |s.fl[i].bufs| && forall k :: 0 <= k < |s.fl[i].bufs| ==> s.fl[i].bufs[k].Buf?
  }

  /** One writev: the next run of consecutive blocks goes to disk, or fails. */
  ghost function WriteRun(s: State, i: nat, ok: bool): State
    requires CanWrite(s, i)
  {
    var f := s.fl[i];
    var next := RunEnd(f.blocks, f.kind.done + 1);
    var kind := Flushing(next, f.kind.failed || !ok, f.kind.mark, f.kind.pinned);
    s.(fl := s.fl[i := f.(kind := kind)],
       log := if ok then s.log + RunEvents(f, f.kind.done, next) else s.log)
  }

  lemma WriteRunLocal(p: Piece, id: PieceId, fl: seq<Flight>, i: nat, next: nat, log: seq<Event>, hungAt: map<nat, nat>, blockSize: int)
    requires Local(p, id, fl, log, hungAt, blockSize)
    requires i < |fl| && fl[i].id == id && fl[i].kind.Flushing? && fl[i].kind.done <= next <= |fl[i].blocks|
    requires |fl[i].blocks| == |fl[i].bufs| && forall k :: 0 <= k < |fl[i].bufs| ==> fl[i].bufs[k].Buf?
    ensures var f := fl[i];
      Local(p, id, fl[i := f.(kind := Flushing(next, f.kind.failed, f.kind.mark, f.kind.pinned))], log + RunEvents(f, f.kind.done, next), hungAt, blockSize)
    ensures var f := fl[i];
      Local(p, id, fl[i := f.(kind := Flushing(next, true, f.kind.mark, f.kind.pinned))], log, hungAt, blockSize)
  {
    hide Holds, Loads, WroteSince;
    var f := fl[i];
    var good := f.(kind := Flushing(next, f.kind.failed, f.kind.mark, f.kind.pinned));
    var bad := f.(kind := Flushing(next, true, f.kind.mark, f.kind.pinned));
    var more := RunEvents(f, f.kind.done, next);
    forall k ensures Loads(fl[i := good], id, k) == Loads(fl, id, k) && Loads(fl[i := bad], id, k) == Loads(fl, id, k) {
      LoadsReplace(fl, i, good, id, k);
      LoadsReplace(fl, i, bad, id, k);
    }
    assert FlightOk(f, p, log, hungAt, blockSize);
    assert FlightOk(bad, p, log, hungAt, blockSize) by { SameHolds(f, bad, p); }
    WrittenFlight(f, p, next, log, hungAt, blockSize);
    hide FlightOk, HashOk, Matches;
    forall k | 0 <= k < |fl| && fl[k].id == id ensures FlightOk(fl[k], p, log + more, hungAt, blockSize) {
      FlightLater(fl[k], p, log, hungAt, log + more, hungAt, blockSize);
    }
    PieceLoadsSame(p, id, fl, fl[i := good]);
    PieceLoadsSame(p, id, fl, fl[i := bad]);
  }

  lemma PieceLoadsSame(p: Piece, id: PieceId, fl: seq<Flight>, gl: seq<Flight>)
    requires PieceLoads(p, id, fl) && forall k :: Loads(gl, id, k) == Loads(fl, id, k)
    ensures PieceLoads(p, id, gl)
  {}

  lemma SameHolds(f: Flight, g: Flight, p: Piece)
    requires Holds(f, p) && g.blocks == f.blocks && g.bufs == f.bufs
    ensures Holds(g, p)
  {}

  lemma WrittenFlight(f: Flight, p: Piece, next: nat, log: seq<Event>, hungAt: map<nat, nat>, blockSize: int)
    requires FlightOk(f, p, log, hungAt, blockSize) && f.kind.Flushing? && f.kind.done <= next <= |f.blocks|
    requires |f.blocks| == |f.bufs| && forall k :: 0 <= k < |f.bufs| ==> f.bufs[k].Buf?
    ensures FlightOk(f.(kind := Flushing(next, f.kind.failed, f.kind.mark, f.kind.pinned)), p, log + RunEvents(f, f.kind.done, next), hungAt, blockSize)
  {
    var g := f.(kind := Flushing(next, f.kind.failed, f.kind.mark, f.kind.pinned));
    SameHolds(f, g, p);
    hide Holds, WroteSince;
    var more := RunEvents(f, f.kind.done, next);
    var newLog := log + more;
    forall k | 0 <= k < next && !f.kind.failed
      ensures WroteSince(newLog, f.kind.mark, f.id, f.blocks[k], f.bufs[k].data)
    {
      if k < f.kind.done {
        WroteSinceLater(log, newLog, f.kind.mark, f.id, f.blocks[k], f.bufs[k].data);
      } else {
        WrittenAt(newLog, f.kind.mark, f.id, f.blocks[k], f.bufs[k].data, |log| + (k - f.kind.done));
      }
    }
  }

  lemma WrittenAt(log: seq<Event>, mark: nat, id: PieceId, b: nat, data: nat, m: nat)
    requires mark <= m < |log| && log[m] == Wrote(id, b, data)
    ensures WroteSince(log, mark, id, b, data)
  {}

  lemma LogOkAppend(log: seq<Event>, more: seq<Event>)
    requires LogOk(log)
    requires forall i :: 0 <= i < |more| ==> !more[i].Digest? && !(more[i].Done? && more[i].ok)
    ensures LogOk(log + more)
  {
    var newLog := log + more;
    DigestsKept(log, more);
    forall d | 0 <= d < |newLog| && newLog[d].Done? && newLog[d].ok
      ensures exists h, m :: 0 <= h < m < d && newLog[h] == HungJob(newLog[d].id, newLog[d].job)
                         && newLog[m] == Wrote(newLog[d].id, newLog[d].job.block, newLog[d].data)
    {
      assert d < |log| && newLog[d] == log[d];
      var h, m :| 0 <= h < m < d && log[h] == HungJob(log[d].id, log[d].job)
                         && log[m] == Wrote(log[d].id, log[d].job.block, log[d].data);
      assert newLog[h] == log[h] && newLog[m] == log[m];
    }
  }

  lemma WriteRunKeeps(s: State, i: nat, ok: bool)
    requires Inv(s) && CanWrite(s, i)
    ensures Inv(WriteRun(s, i, ok))
  {
    hide CacheInv, Local, LogOk, OthersShrink, SameElsewhere, Issued, RunEvents, WroteSince;
    var f := s.fl[i];
    var t := WriteRun(s, i, ok);
    OthersSame(s.c, t.c, f.id);
    ElsewhereReplace(s.fl, i, t.fl[i]);
    WriteRunLocal(s.c.pieces[f.id], f.id, s.fl, i, t.fl[i].kind.done, s.log, s.hungAt, s.c.blockSize);
    var more := RunEvents(f, f.kind.done, t.fl[i].kind.done);
    assert forall k :: 0 <= k < |more| ==> more[k].Wrote? by { RunEventsWrote(f, f.kind.done, t.fl[i].kind.done); }
    LogOkAppend(s.log, more);
    forall j: ReadJob { IssuedReplace(s.fl, i, t.fl[i], j); }
    if f.kind.failed { assert Flushing(t.fl[i].kind.done, true, f.kind.mark, f.kind.pinned) == t.fl[i].kind; }
    Assemble(s, t, f.id);
  }

  lemma RunEventsWrote(f: Flight, a: nat, b: nat)
    requires a <= b <= |f.blocks| && |f.blocks| == |f.bufs| && forall i :: 0 <= i < |f.bufs| ==> f.bufs[i].Buf?
    ensures forall k :: 0 <= k < |RunEvents(f, a, b)| ==> RunEvents(f, a, b)[k].Wrote?
  {}

  // ------------------------------------------------------------ iovec_flushed

  /** disk_io_job::completed: the job's block is neither dirty nor being written. */
  predicate Completed(j: WriteJob, bs: seq<Block>) {
    j.block < |bs| && !bs[j.block].dirty && !bs[j.block].pending
  }

  /** The write jobs that stay on the piece: none after a write error. */
  function Remaining(jobs: seq<WriteJob>, bs: seq<Block>, failed: bool): (r: seq<WriteJob>)
    ensures forall j :: j in r ==> j in jobs && !failed && !Completed(j, bs)
  {
    if failed || jobs == [] then [] else
      var r := Remaining(jobs[..|jobs| - 1], bs, failed);
      var j := jobs[|jobs| - 1];
      if Completed(j, bs) then r else r + [j]
  }

  function DataOf(b: Block): nat { if b.buf.Buf? then b.buf.data else 0 }

  /** What is reported of the jobs: every one fails after an error, otherwise the
      completed ones succeed. */
  function Completions(id: PieceId, jobs: seq<WriteJob>, bs: seq<Block>, failed: bool): (r: seq<Event>)
    ensures forall i :: 0 <= i < |r| ==> r[i].Done? && r[i].id == id && r[i].job in jobs && r[i].ok == !failed
    ensures forall i :: 0 <= i < |r| && r[i].ok ==>
              Completed(r[i].job, bs) && r[i].data == DataOf(bs[r[i].job.block])
  {
    if jobs == [] then [] else
      var r := Completions(id, jobs[..|jobs| - 1], bs, failed);
      var j := jobs[|jobs| - 1];
      if failed then r + [Done(id, j, false, 0)]
      else if Completed(j, bs) then r + [Done(id, j, true, DataOf(bs[j.block]))]
      else r
  }

  ghost predicate CanLand(c: Cache, id: PieceId, ks: seq<nat>, now: int) {
    && CacheInv(c) && id in c.pieces && ks != [] && Editable(c.pieces[id], ks, EndFlush)
    && c.pieces[id].pieceRefcount >= 1 && now >= c.clock
  }

  /** flush_range unpins the piece and blocks_flushed clears the written blocks. */
  ghost function Cleared(c: Cache, id: PieceId, ks: seq<nat>): Cache
    requires id in c.pieces && Editable(c.pieces[id], ks, EndFlush)
  {
    PinEditable(c, id, ks, -1);
    EditBlocks(Pin(c, id, -1), id, ks, EndFlush)
  }

  lemma ClearedFacts(c: Cache, id: PieceId, ks: seq<nat>, now: int)
    requires CanLand(c, id, ks, now)
    ensures var d := Cleared(c, id, ks); var p := c.pieces[id];
      && CacheInv(d) && d.pieces == c.pieces[id := d.pieces[id]] && d.blockSize == c.blockSize && d.clock == c.clock
      && d.pieces[id] == EditAll(p, ks, EndFlush).(pieceRefcount := p.pieceRefcount - 1)
      && |d.lru| == NUM_LRUS && 0 <= d.pieces[id].cacheState < NUM_LRUS
  {
    hide CacheInv, PieceOk, EditAll, Put, OthersShrink, Editable;
    NotGhost(c, id);
    PinKeeps(c, id, -1);
    PinEditable(c, id, ks, -1);
    var c1 := Pin(c, id, -1);
    EditKeeps(c1, id, ks, EndFlush);
    EditEffect(c1, id, ks, EndFlush);
    InBounds(c.pieces[id], ks, EndFlush);
    EditPinned(c.pieces[id], ks, EndFlush, -1);
    PieceFacts(EditBlocks(c1, id, ks, EndFlush), id);
  }

  lemma InBounds(p: Piece, ks: seq<nat>, e: Edit)
    requires Editable(p, ks, e)
    ensures forall i :: 0 <= i < |ks| ==> ks[i] < |p.blocks|
  {}

  lemma PinEditable(c: Cache, id: PieceId, ks: seq<nat>, delta: int)
    requires id in c.pieces && Editable(c.pieces[id], ks, EndFlush)
    ensures Editable(Pin(c, id, delta).pieces[id], ks, EndFlush)
  {}

  /** blocks_flushed up to its maybe_free_piece: the piece is in the list it now belongs to. */
  ghost function Cleaned(c: Cache, id: PieceId, ks: seq<nat>, now: int): Cache
    requires CanLand(c, id, ks, now)
  {
    ClearedFacts(c, id, ks, now);
    UpdateState(Cleared(c, id, ks), id, now)
  }

  /** The piece is still in the cache after blocks_flushed. */
  ghost predicate Stays(c: Cache, id: PieceId, ks: seq<nat>, now: int)
    requires CanLand(c, id, ks, now)
  {
    CleanedKeeps(c, id, ks, now);
    id in MaybeFree(Cleaned(c, id, ks, now), id).pieces
  }

  /** The jobs whose blocks are on disk leave the piece. */
  function Settle(p: Piece, failed: bool): Piece { p.(jobs := Remaining(p.jobs, p.blocks, failed)) }

  /** flush_range after the write, up to the end of iovec_flushed. */
  ghost function Landed(c: Cache, id: PieceId, ks: seq<nat>, failed: bool, now: int): Cache
    requires CanLand(c, id, ks, now) && Stays(c, id, ks, now)
  {
    CleanedKeeps(c, id, ks, now);
    var d := MaybeFree(Cleaned(c, id, ks, now), id);
    SetPiece(d, id, Settle(d.pieces[id], failed))
  }

  lemma {:induction false} EditPinned(p: Piece, ks: seq<nat>, e: Edit, delta: int)
    requires forall i :: 0 <= i < |ks| ==> ks[i] < |p.blocks|
    ensures EditAll(p.(pieceRefcount := p.pieceRefcount + delta), ks, e)
         == EditAll(p, ks, e).(pieceRefcount := p.pieceRefcount + delta)
    ensures EditAll(p, ks, e).pieceRefcount == p.pieceRefcount
  {
    if ks != [] { EditPinned(p, ks[..|ks| - 1], e, delta); }
  }

  lemma UpdateStateEffect(c: Cache, id: PieceId, now: int)
    requires |c.lru| == NUM_LRUS && id in c.pieces && 0 <= c.pieces[id].cacheState < NUM_LRUS
    ensures var d := UpdateState(c, id, now);
      && d.pieces == c.pieces[id := d.pieces[id]] && d.blockSize == c.blockSize && |d.lru| == NUM_LRUS
      && d.pieces[id] == c.pieces[id].(cacheState := d.pieces[id].cacheState, expire := d.pieces[id].expire)
  {
    hide Without;
    assert c.pieces[id := c.pieces[id]] == c.pieces;
  }

  lemma CleanedKeeps(c: Cache, id: PieceId, ks: seq<nat>, now: int)
    requires CanLand(c, id, ks, now)
    ensures var d := Cleaned(c, id, ks, now); var p := c.pieces[id];
      && CacheInv(d) && OthersShrink(c, d, id) && id in d.pieces && d.blockSize == c.blockSize && !IsGhost(d.pieces[id].cacheState)
      && d.pieces[id] == EditAll(p, ks, EndFlush).(pieceRefcount := p.pieceRefcount - 1,
           cacheState := d.pieces[id].cacheState, expire := d.pieces[id].expire)
  {
    hide CacheInv, PieceOk, EditAll, OthersShrink, UpdateState, Cleared;
    ClearedFacts(c, id, ks, now);
    var c2 := Cleared(c, id, ks);
    UpdateStateKeeps(c2, id, now);
    UpdateStateEffect(c2, id, now);
    var d := Cleaned(c, id, ks, now);
    EditAllLemma(c.pieces[id], ks, EndFlush);
    assert CanEdit(EndFlush, c.pieces[id].blocks[ks[0]]);
    assert d.pieces[id].blocks[ks[0]].buf.Buf?;
    hide Editable;
    NotGhost(d, id);
    OthersSame(c, d, id);
  }

  /** Where update_cache_state puts the piece: as it had dirty blocks it was in the
      write list. */
  lemma CleanedState(c: Cache, id: PieceId, ks: seq<nat>, now: int)
    requires CanLand(c, id, ks, now)
    ensures var p, q := c.pieces[id], Cleaned(c, id, ks, now).pieces[id];
      q.cacheState == if p.numDirty > |ks| || p.hash.Some? then WRITE_LRU else READ_LRU1
  {
    hide CacheInv, PieceOk, EditAll, Cleared, Relink, Tally;
    ClearedFacts(c, id, ks, now);
    EditAllLemma(c.pieces[id], ks, EndFlush);
    PieceFacts(c, id);
    DirtyCount(c.pieces[id], c.blockSize, ks[0]);
    hide Editable;
  }

  lemma DirtyCount(p: Piece, blockSize: int, k: nat)
    requires PieceOk(p, blockSize) && k < |p.blocks| && p.blocks[k].dirty
    ensures p.numDirty > 0
  {
    hide Tally;
    TallyBounds(p.blocks);
    TallyZero(p.blocks, k);
  }

  /** The piece as iovec_flushed leaves it, had blocks_flushed not freed anything. */
  ghost function Unfreed(c: Cache, id: PieceId, ks: seq<nat>, failed: bool, now: int): Cache
    requires CanLand(c, id, ks, now)
  {
    CleanedKeeps(c, id, ks, now);
    SetPiece(Cleaned(c, id, ks, now), id, Settle(Cleaned(c, id, ks, now).pieces[id], failed))
  }

  lemma UnfreedKeeps(c: Cache, id: PieceId, ks: seq<nat>, failed: bool, now: int)
    requires CanLand(c, id, ks, now)
    ensures var d := Unfreed(c, id, ks, failed, now); var p := c.pieces[id];
      && CacheInv(d) && OthersShrink(c, d, id) && id in d.pieces
      && d.pieces[id] == EditAll(p, ks, EndFlush).(pieceRefcount := p.pieceRefcount - 1,
           cacheState := d.pieces[id].cacheState, expire := d.pieces[id].expire,
           jobs := Remaining(p.jobs, EditAll(p, ks, EndFlush).blocks, failed))
  {
    hide CacheInv, PieceOk, EditAll, OthersShrink, Cleaned;
    CleanedKeeps(c, id, ks, now);
    var c3 := Cleaned(c, id, ks, now);
    EditAllLemma(c.pieces[id], ks, EndFlush);
    hide Editable;
    PieceFacts(c3, id);
    var d := Unfreed(c, id, ks, failed, now);
    SetPieceKeeps(c3, id, d.pieces[id]);
    OthersSame(c3, d, id);
    OthersTrans(c, c3, d, id);
  }

  /** A piece that blocks_flushed may free has no jobs, so it does not matter that its
      jobs are looked at only then. */
  lemma LandedKeeps(c: Cache, id: PieceId, ks: seq<nat>, failed: bool, now: int)
    requires CanLand(c, id, ks, now) && Stays(c, id, ks, now)
    ensures var d := Landed(c, id, ks, failed, now);
      CacheInv(d) && id in d.pieces && Frees(Unfreed(c, id, ks, failed, now), d, id)
    ensures c.pieces[id].pieceRefcount >= 2 ==> Landed(c, id, ks, failed, now) == Unfreed(c, id, ks, failed, now)
  {
    hide CacheInv, EditAll, OthersShrink, Cleaned, EvictPiece, OkToEvict, Shrunk, Droppable;
    CleanedKeeps(c, id, ks, now);
    UnfreedKeeps(c, id, ks, failed, now);
    EditAllFields(c.pieces[id], ks);
    var c3 := Cleaned(c, id, ks, now);
    MaybeFreeLemma(c3, id);
    if FreeNow(c3.pieces[id]) {
      assert c3.pieces[id := c3.pieces[id]] == c3.pieces;
      var d := MaybeFree(c3, id);
      assert d.pieces[id := d.pieces[id]] == d.pieces;
      Unpinned(c3.pieces[id]);
    } else {
      FreesRefl(Unfreed(c, id, ks, failed, now), id);
    }
  }

  lemma Unpinned(p: Piece)
    requires FreeNow(p)
    ensures p.pieceRefcount == 0
  {}

  lemma EditAllFields(p: Piece, ks: seq<nat>)
    requires Editable(p, ks, EndFlush)
    ensures EditAll(p, ks, EndFlush).jobs == p.jobs && EditAll(p, ks, EndFlush).pieceRefcount == p.pieceRefcount
  {
    EditAllLemma(p, ks, EndFlush);
    hide EditAll, Editable;
  }

  /** maybe_free_piece removes a piece exactly if it frees it and it does not become a
      ghost. */
  lemma FreedStays(c: Cache, id: PieceId)
    requires CacheInv(c) && id in c.pieces && !IsGhost(c.pieces[id].cacheState)
    ensures var p := c.pieces[id];
      id in MaybeFree(c, id).pieces <==>
        !FreeNow(p) || (!p.markedForDeletion && (p.cacheState == READ_LRU1 || p.cacheState == READ_LRU2))
  {
    hide CacheInv, PieceOk, EvictBlocks, Evicts, MoveToGhost;
    var p := c.pieces[id];
    if FreeNow(p) {
      EvictBlocksLemma(c, id);
      var d := EvictBlocks(c, id);
      PieceFacts(c, id);
      AllUnreferenced(p, c.blockSize);
      assert forall k :: 0 <= k < |p.blocks| ==> d.pieces[id].blocks[k] == EMPTY;
      PieceFacts(d, id);
      EmptyPiece(d.pieces[id], d.blockSize);
      RetireKeeps(d, id);
      var c1 := SetPiece(d, id, d.pieces[id].(hash := None, jobs := []));
      if p.cacheState == READ_LRU1 || p.cacheState == READ_LRU2 { GhostStays(c1, id); }
    }
  }

  lemma GhostStays(c: Cache, id: PieceId)
    requires CacheInv(c) && id in c.pieces && (c.pieces[id].cacheState == READ_LRU1 || c.pieces[id].cacheState == READ_LRU2)
    ensures id in MoveToGhost(c, id).pieces
  {
    hide CacheInv, Evicts, TrimGhosts, Relink;
    PieceFacts(c, id);
    TrimGhostsLemma(c, c.pieces[id].cacheState + 1);
  }

  /** The last of the step: the cache was under pressure and evicted (`mid`), then
      the caller of flush_range lets the piece go. */
  ghost function Released(mid: Cache, id: PieceId): Cache
    requires CacheInv(mid) && id in mid.pieces && mid.pieces[id].pieceRefcount >= 1
  {
    NotGhost(mid, id);
    PinKeeps(mid, id, -1);
    MaybeFree(Pin(mid, id, -1), id)
  }

  /** flush_range goes on only with a piece that is still there. After its own
      maybe_free_piece it evicts, and the pin of its caller, if there is one, keeps the
      piece until he lets it go. */
  ghost predicate CanFinish(s: State, i: nat, mid: Cache, now: int) {
    && i < |s.fl| && s.fl[i].kind.Flushing? && s.fl[i].kind.done == |s.fl[i].blocks|
    && CanLand(s.c, s.fl[i].id, s.fl[i].blocks, now) && Stays(s.c, s.fl[i].id, s.fl[i].blocks, now)
    && var landed := Landed(s.c, s.fl[i].id, s.fl[i].blocks, s.fl[i].kind.failed, now);
       && CacheInv(landed) && s.fl[i].id in landed.pieces && Evicts(MaybeFree(landed, s.fl[i].id), mid)
       && CacheInv(mid) && (s.fl[i].kind.pinned ==> s.fl[i].id in mid.pieces && mid.pieces[s.fl[i].id].pieceRefcount >= 1)
  }

  ghost function FlushFinish(s: State, i: nat, mid: Cache, now: int): State
    requires CanFinish(s, i, mid, now)
  {
    var f := s.fl[i];
    var p := s.c.pieces[f.id];
    InBounds(p, f.blocks, EndFlush);
    var bs := EditAll(p, f.blocks, EndFlush).blocks;
    s.(c := if f.kind.pinned then Released(mid, f.id) else mid, fl := Drop(s.fl, i),
       log := s.log + Completions(f.id, p.jobs, bs, f.kind.failed))
  }

  /** The piece is there and pinned all through the section, whatever is evicted. */
  ghost predicate CarriedThrough(c: Cache, id: PieceId, ks: seq<nat>, failed: bool, now: int)
    requires CanLand(c, id, ks, now)
  {
    && Stays(c, id, ks, now)
    && var d := Landed(c, id, ks, failed, now);
       && CacheInv(d) && id in d.pieces
       && forall mid :: Evicts(MaybeFree(d, id), mid) ==> id in mid.pieces && mid.pieces[id].pieceRefcount >= 1
  }

  /** When every run of a flight is written the locked section that follows finds the
      blocks as it left them: dirty, pending and referenced, and the piece pinned. The
      pin of the caller carries the piece through the whole section. */
  lemma FlushEnabled(s: State, i: nat, now: int)
    requires Inv(s) && i < |s.fl| && s.fl[i].kind.Flushing? && now >= s.c.clock
    ensures CanLand(s.c, s.fl[i].id, s.fl[i].blocks, now)
    ensures s.fl[i].kind.pinned ==> CarriedThrough(s.c, s.fl[i].id, s.fl[i].blocks, s.fl[i].kind.failed, now)
  {
    hide CacheInv, LogOk, Ledger, WroteSince, Evicts, Landed, EditAll, Cleaned, MaybeFree;
    var f := s.fl[i];
    var p := s.c.pieces[f.id];
    PieceFacts(s.c, f.id);
    FlightBlocks(p, s.fl, i, s.log, s.hungAt, s.c.blockSize);
    if f.kind.pinned {
      CleanedKeeps(s.c, f.id, f.blocks, now);
      EditAllFields(p, f.blocks);
      PinnedNotFreed(Cleaned(s.c, f.id, f.blocks, now), f.id);
      LandedKeeps(s.c, f.id, f.blocks, f.kind.failed, now);
      UnfreedKeeps(s.c, f.id, f.blocks, f.kind.failed, now);
      var c := Landed(s.c, f.id, f.blocks, f.kind.failed, now);
      PinnedNotFreed(c, f.id);
      forall mid | Evicts(MaybeFree(c, f.id), mid) ensures f.id in mid.pieces && mid.pieces[f.id].pieceRefcount >= 1 {
        PinnedStays(c, mid, f.id);
      }
    }
  }

  /** A pinned piece is not freed. */
  lemma PinnedNotFreed(c: Cache, id: PieceId)
    requires CacheInv(c) && id in c.pieces && c.pieces[id].pieceRefcount > 0
    ensures MaybeFree(c, id) == c
  {
    hide CacheInv;
  }

  /** Somebody else is at work on the piece of flight `i`. */
  ghost predicate Shared(fl: seq<Flight>, i: nat)
    requires i < |fl|
  {
    exists j :: 0 <= j < |fl| && j != i && fl[j].id == fl[i].id
  }

  /** Exactly when the piece is still there after blocks_flushed, for iovec_flushed to
      look at its jobs: its caller pinned it, or it is not marked for eviction, or it has
      jobs, or another thread is at work on it, or its hash has begun, or it may become
      a ghost and does. */
  lemma FlushStays(s: State, i: nat, now: int)
    requires Inv(s) && i < |s.fl| && s.fl[i].kind.Flushing? && now >= s.c.clock
    ensures CanLand(s.c, s.fl[i].id, s.fl[i].blocks, now)
    ensures var f := s.fl[i]; var p := s.c.pieces[f.id];
      Stays(s.c, f.id, f.blocks, now) <==>
        || f.kind.pinned || !p.markedForEviction || p.jobs != [] || Shared(s.fl, i)
        || (p.hash.Some? && p.hash.value.offset != 0)
        || (!p.markedForDeletion && p.hash.None? && p.numDirty <= |f.blocks|)
  {
    hide CacheInv, LogOk, Ledger, WroteSince, Landed, EditAll, Cleaned, MaybeFree, Local, PieceOk, OkToEvict;
    FlushEnabled(s, i, now);
    var f := s.fl[i];
    var p := s.c.pieces[f.id];
    CleanedKeeps(s.c, f.id, f.blocks, now);
    CleanedState(s.c, f.id, f.blocks, now);
    var d := Cleaned(s.c, f.id, f.blocks, now);
    FreedStays(d, f.id);
    PieceFacts(d, f.id);
    EditAllLemma(p, f.blocks, EndFlush);
    hide Editable;
    AloneIff(p, d.pieces[f.id], s.fl, i, s.log, s.hungAt, s.c.blockSize);
  }

  /** Once the flight has let go, nothing holds the piece exactly if nobody else is at
      work on it. */
  lemma AloneIff(p: Piece, q: Piece, fl: seq<Flight>, i: nat, log: seq<Event>, hungAt: map<nat, nat>, blockSize: int)
    requires i < |fl| && fl[i].kind.Flushing? && Local(p, fl[i].id, fl, log, hungAt, blockSize) && PieceOk(q, blockSize)
    requires Editable(p, fl[i].blocks, EndFlush)
    requires q == EditAll(p, fl[i].blocks, EndFlush).(pieceRefcount := p.pieceRefcount - 1, cacheState := q.cacheState, expire := q.expire)
    ensures OkToEvict(q, false) <==> !fl[i].kind.pinned && !Shared(fl, i) && (p.hash.None? || p.hash.value.offset == 0)
  {
    hide EditAll, WroteSince, Loads, Editable;
    var f := fl[i];
    var gl := Drop(fl, i);
    EditAllReads(p, f.blocks);
    forall k | 0 <= k < |q.blocks| ensures HeldBy(q, k, Loads(gl, f.id, k), f.kind.pinned) {
      LetGo(p, q, fl, i, k, log, hungAt, blockSize);
    }
    if Shared(fl, i) {
      var b := SharedLoad(p, fl, i, log, hungAt, blockSize);
      TallyZero(q.blocks, b);
    } else {
      NotShared(fl, i);
      forall k | 0 <= k < |q.blocks| ensures q.blocks[k].refcount == 0 {
        assert HeldBy(q, k, Loads(gl, f.id, k), f.kind.pinned);
      }
      NoRefs(q.blocks);
      assert HeldBy(q, 0, Loads(gl, f.id, 0), f.kind.pinned);
    }
  }

  /** Whoever is at work on the piece holds it. */
  lemma SharedLoad(p: Piece, fl: seq<Flight>, i: nat, log: seq<Event>, hungAt: map<nat, nat>, blockSize: int) returns (b: nat)
    requires i < |fl| && Local(p, fl[i].id, fl, log, hungAt, blockSize) && |p.blocks| > 0 && Shared(fl, i)
    ensures b < |p.blocks| && var l := Loads(Drop(fl, i), fl[i].id, b);
      l.AtLeast(NO_LOAD) && (l.refs > 0 || l.pins > 0 || l.hashes > 0 || l.reading > 0)
  {
    hide WroteSince, Loads, PieceLoads, JobsOk, HashOk, ReadsOk;
    var j :| 0 <= j < |fl| && j != i && fl[j].id == fl[i].id;
    b := if fl[j].kind.Referencing? then fl[j].blocks[0] else 0;
    assert FlightOk(fl[j], p, log, hungAt, blockSize);
    assert fl[j].kind.Referencing? ==> b in fl[j].blocks;
    var h := if j < i then j else j - 1;
    assert Drop(fl, i)[h] == fl[j];
    LoadsAtLeast(Drop(fl, i), h, fl[i].id, b);
  }

  lemma NotShared(fl: seq<Flight>, i: nat)
    requires i < |fl| && !Shared(fl, i)
    ensures forall k :: Loads(Drop(fl, i), fl[i].id, k) == NO_LOAD
  {
    hide Loads;
    var gl := Drop(fl, i);
    forall h | 0 <= h < |gl| ensures gl[h].id != fl[i].id {
      assert gl[h] == fl[if h < i then h else h + 1];
    }
    forall k ensures Loads(gl, fl[i].id, k) == NO_LOAD { LoadsNone(gl, fl[i].id, k); }
  }

  /** The piece agrees with a load and the caller's pin. */
  predicate HeldBy(p: Piece, k: nat, l: Load, pinned: bool)
    requires k < |p.blocks|
  {
    && p.blocks[k].refcount == l.refs && p.pieceRefcount == l.pins + (if pinned then 1 else 0)
    && (p.hashing <==> l.hashes != 0) && (p.outstandingRead <==> l.reading != 0)
  }

  lemma LetGo(p: Piece, q: Piece, fl: seq<Flight>, i: nat, k: nat, log: seq<Event>, hungAt: map<nat, nat>, blockSize: int)
    requires i < |fl| && fl[i].kind.Flushing? && Local(p, fl[i].id, fl, log, hungAt, blockSize) && k < |p.blocks|
    requires Editable(p, fl[i].blocks, EndFlush)
    requires q == EditAll(p, fl[i].blocks, EndFlush).(pieceRefcount := p.pieceRefcount - 1, cacheState := q.cacheState, expire := q.expire)
    ensures HeldBy(q, k, Loads(Drop(fl, i), fl[i].id, k), fl[i].kind.pinned)
  {
    hide EditAll, WroteSince, Loads, FlightOk, JobsOk, HashOk, ReadsOk;
    EditAllLemma(p, fl[i].blocks, EndFlush);
    LoadsDrop(fl, i, fl[i].id, k);
    assert Matches(p, k, Loads(fl, fl[i].id, k));
    LoadsAtLeast(fl, i, fl[i].id, k);
  }

  lemma EditAllReads(p: Piece, ks: seq<nat>)
    requires Editable(p, ks, EndFlush)
    ensures var q := EditAll(p, ks, EndFlush);
      && |q.blocks| == |p.blocks| && q.readJobs == p.readJobs && q.hash == p.hash && q.outstandingRead == p.outstandingRead
  {
    EditAllLemma(p, ks, EndFlush);
    hide EditAll, Editable;
  }

  lemma {:induction false} NoRefs(bs: seq<Block>)
    requires forall k :: 0 <= k < |bs| ==> bs[k].refcount == 0
    ensures Tally(bs).refs == 0
  {
    if bs != [] { NoRefs(bs[..|bs| - 1]); }
  }

  lemma PinnedStays(c: Cache, mid: Cache, id: PieceId)
    requires Evicts(c, mid) && id in c.pieces && c.pieces[id].pieceRefcount >= 1
    ensures id in mid.pieces && Shrunk(c.pieces[id], mid.pieces[id])
    ensures mid.pieces[id].pieceRefcount == c.pieces[id].pieceRefcount && mid.pieces[id].cacheState == c.pieces[id].cacheState
  {
    hide Outside;
  }

  lemma FlightBlocks(p: Piece, fl: seq<Flight>, i: nat, log: seq<Event>, hungAt: map<nat, nat>, blockSize: int)
    requires i < |fl| && fl[i].kind.Flushing? && Local(p, fl[i].id, fl, log, hungAt, blockSize) && PieceOk(p, blockSize)
    ensures fl[i].blocks != [] && Editable(p, fl[i].blocks, EndFlush) && p.pieceRefcount >= Pins(fl[i].kind.pinned)
  {
    hide WroteSince, Loads;
    var f := fl[i];
    assert FlightOk(f, p, log, hungAt, blockSize);
    forall a | 0 <= a < |f.blocks| ensures CanEdit(EndFlush, p.blocks[f.blocks[a]]) {
      var k := f.blocks[a];
      assert k in f.blocks;
      LoadsAtLeast(fl, i, f.id, k);
      assert Matches(p, k, Loads(fl, f.id, k));
      assert BlockOk(p.blocks[k]);
    }
    LoadsAtLeast(fl, i, f.id, 0);
    assert Matches(p, 0, Loads(fl, f.id, 0));
  }

  /** The piece after the flight has landed. */
  predicate Finishes(p: Piece, q: Piece, f: Flight)
    requires f.kind.Flushing? && forall i :: 0 <= i < |f.blocks| ==> f.blocks[i] < |p.blocks|
  {
    var r := EditAll(p, f.blocks, EndFlush);
    q == r.(pieceRefcount := p.pieceRefcount - Pins(f.kind.pinned), cacheState := q.cacheState, expire := q.expire,
            jobs := Remaining(p.jobs, r.blocks, f.kind.failed))
  }

  lemma FinishLoads(p: Piece, q: Piece, fl: seq<Flight>, i: nat)
    requires i < |fl| && fl[i].kind.Flushing? && PieceLoads(p, fl[i].id, fl)
    requires Editable(p, fl[i].blocks, EndFlush) && Finishes(p, q, fl[i])
    ensures PieceLoads(q, fl[i].id, Drop(fl, i))
  {
    hide EditAll, Loads;
    var f := fl[i];
    EditAllLemma(p, f.blocks, EndFlush);
    forall k | 0 <= k < |q.blocks| ensures Matches(q, k, Loads(Drop(fl, i), f.id, k)) {
      LoadsDrop(fl, i, f.id, k);
      assert Matches(p, k, Loads(fl, f.id, k));
      LoadsAtLeast(fl, i, f.id, k);
    }
  }

  lemma FinishJobs(p: Piece, q: Piece, f: Flight, log: seq<Event>, hungAt: map<nat, nat>)
    requires f.kind.Flushing? && JobsOk(p, f.id, log, hungAt) && Editable(p, f.blocks, EndFlush) && Finishes(p, q, f)
    ensures JobsOk(q, f.id, log, hungAt)
    ensures forall a :: 0 <= a < |q.jobs| ==> q.jobs[a] in p.jobs
  {
    hide EditAll;
    EditAllLemma(p, f.blocks, EndFlush);
    forall a | 0 <= a < |q.jobs| ensures q.jobs[a] in p.jobs && q.blocks[q.jobs[a].block] == p.blocks[q.jobs[a].block] {
      assert q.jobs[a] in q.jobs;
      var b :| 0 <= b < |p.jobs| && p.jobs[b] == q.jobs[a];
    }
  }

  lemma FinishSame(p: Piece, q: Piece, f: Flight)
    requires f.kind.Flushing? && Editable(p, f.blocks, EndFlush) && Finishes(p, q, f)
    ensures |q.blocks| == |p.blocks| && forall k :: 0 <= k < |p.blocks| ==> q.blocks[k].buf == p.blocks[k].buf
    ensures q.hash == p.hash && q.size == p.size && q.hashing == p.hashing && q.readJobs == p.readJobs && q.outstandingRead == p.outstandingRead
  {
    EditAllLemma(p, f.blocks, EndFlush);
    hide EditAll, Remaining;
  }

  lemma FinishLocal(p: Piece, q: Piece, fl: seq<Flight>, i: nat, log: seq<Event>, hungAt: map<nat, nat>, blockSize: int)
    requires i < |fl| && fl[i].kind.Flushing? && Local(p, fl[i].id, fl, log, hungAt, blockSize)
    requires Editable(p, fl[i].blocks, EndFlush) && Finishes(p, q, fl[i])
    ensures Local(q, fl[i].id, Drop(fl, i), log, hungAt, blockSize)
  {
    hide PieceLoads, JobsOk, FlightOk, Editable, Finishes;
    var f := fl[i];
    var gl := Drop(fl, i);
    FinishLoads(p, q, fl, i);
    FinishJobs(p, q, f, log, hungAt);
    FinishSame(p, q, f);
    forall a | 0 <= a < |gl| && gl[a].id == f.id ensures FlightOk(gl[a], q, log, hungAt, blockSize) {
      var b := if a < i then a else a + 1;
      assert gl[a] == fl[b];
      assert FlightOk(fl[b], p, log, hungAt, blockSize);
      FewerJobs(fl[b], p, q, log, hungAt, blockSize);
    }
  }

  /** Losing jobs and nothing else that matters leaves the other flights' state. */
  lemma FewerJobs(f: Flight, p: Piece, q: Piece, log: seq<Event>, hungAt: map<nat, nat>, blockSize: int)
    requires FlightOk(f, p, log, hungAt, blockSize)
    requires |q.blocks| == |p.blocks| && (forall k :: 0 <= k < |p.blocks| ==> q.blocks[k].buf == p.blocks[k].buf)
    requires q.hash == p.hash && q.size == p.size
    requires forall a :: 0 <= a < |q.jobs| ==> q.jobs[a] in p.jobs
    ensures FlightOk(f, q, log, hungAt, blockSize)
  {
    HoldsSame(f, p, q);
    hide Holds, WroteSince;
  }

  /** Every job reported done was hung before its block was written. */
  lemma FinishLog(p: Piece, fl: seq<Flight>, i: nat, log: seq<Event>, hungAt: map<nat, nat>, blockSize: int)
    requires i < |fl| && fl[i].kind.Flushing? && Local(p, fl[i].id, fl, log, hungAt, blockSize)
    requires Editable(p, fl[i].blocks, EndFlush) && fl[i].kind.done == |fl[i].blocks| && LogOk(log)
    ensures LogOk(log + Completions(fl[i].id, p.jobs, EditAll(p, fl[i].blocks, EndFlush).blocks, fl[i].kind.failed))
  {
    hide EditAll, Loads;
    var f := fl[i];
    EditAllLemma(p, f.blocks, EndFlush);
    var bs := EditAll(p, f.blocks, EndFlush).blocks;
    var more := Completions(f.id, p.jobs, bs, f.kind.failed);
    assert FlightOk(f, p, log, hungAt, blockSize);
    forall a | 0 <= a < |more| && more[a].ok
      ensures exists h, m :: 0 <= h < m < |log| && log[h] == HungJob(f.id, more[a].job)
                             && log[m] == Wrote(f.id, more[a].job.block, more[a].data)
    {
      DoneWasWritten(p, f, bs, more[a], log, hungAt, blockSize);
    }
    hide LogOk;
    LogOkDone(log, more);
  }

  lemma DoneWasWritten(p: Piece, f: Flight, bs: seq<Block>, e: Event, log: seq<Event>, hungAt: map<nat, nat>, blockSize: int)
    requires FlightOk(f, p, log, hungAt, blockSize) && JobsOk(p, f.id, log, hungAt)
    requires f.kind.Flushing? && !f.kind.failed && f.kind.done == |f.blocks|
    requires |bs| == |p.blocks| && forall k :: 0 <= k < |bs| ==> bs[k] == if k in f.blocks then Edited(EndFlush, p.blocks[k]) else p.blocks[k]
    requires e.Done? && e.job in p.jobs && Completed(e.job, bs) && e.data == DataOf(bs[e.job.block])
    ensures exists h, m :: 0 <= h < m < |log| && log[h] == HungJob(f.id, e.job) && log[m] == Wrote(f.id, e.job.block, e.data)
  {
    var b :| 0 <= b < |p.jobs| && p.jobs[b] == e.job;
    var h := hungAt[e.job.id];
    assert e.job.block in f.blocks;
    var t :| 0 <= t < |f.blocks| && f.blocks[t] == e.job.block;
    assert WroteSince(log, f.kind.mark, f.id, f.blocks[t], f.bufs[t].data);
    var m :| f.kind.mark <= m < |log| && log[m] == Wrote(f.id, f.blocks[t], f.bufs[t].data);
    assert 0 <= h < m && log[h] == HungJob(f.id, e.job);
  }

  lemma LogOkDone(log: seq<Event>, more: seq<Event>)
    requires LogOk(log) && forall a :: 0 <= a < |more| ==> more[a].Done?
    requires forall a :: 0 <= a < |more| && more[a].ok ==>
      exists h, m :: 0 <= h < m < |log| && log[h] == HungJob(more[a].id, more[a].job)
                             && log[m] == Wrote(more[a].id, more[a].job.block, more[a].data)
    ensures LogOk(log + more)
  {
    var newLog := log + more;
    DigestsKept(log, more);
    forall d | 0 <= d < |newLog| && newLog[d].Done? && newLog[d].ok
      ensures exists h, m :: 0 <= h < m < d && newLog[h] == HungJob(newLog[d].id, newLog[d].job)
                         && newLog[m] == Wrote(newLog[d].id, newLog[d].job.block, newLog[d].data)
    {
      if d < |log| {
        assert newLog[d] == log[d];
        var h, m :| 0 <= h < m < d && log[h] == HungJob(log[d].id, log[d].job)
                           && log[m] == Wrote(log[d].id, log[d].job.block, log[d].data);
        assert newLog[h] == log[h] && newLog[m] == log[m];
      } else {
        var e := more[d - |log|];
        assert newLog[d] == e;
        var h, m :| 0 <= h < m < |log| && log[h] == HungJob(e.id, e.job) && log[m] == Wrote(e.id, e.job.block, e.data);
        assert newLog[h] == log[h] && newLog[m] == log[m];
      }
    }
  }

  /** What remains of the piece when the step ends. */
  lemma ReleasedLocal(c: Cache, mid: Cache, id: PieceId, fl: seq<Flight>, log: seq<Event>, hungAt: map<nat, nat>)
    requires CacheInv(c) && CacheInv(mid) && Evicts(c, mid) && id in c.pieces && c.pieces[id].pieceRefcount >= 1
    requires Local(c.pieces[id].(pieceRefcount := c.pieces[id].pieceRefcount - 1), id, fl, log, hungAt, c.blockSize)
    requires id in mid.pieces && mid.pieces[id].pieceRefcount >= 1
    ensures var d := Released(mid, id);
      && CacheInv(d) && OthersShrink(c, d, id)
      && (id in d.pieces ==> Local(d.pieces[id], id, fl, log, hungAt, d.blockSize) && d.pieces[id].readJobs == c.pieces[id].readJobs)
      && (id !in d.pieces ==> c.pieces[id].readJobs == [] && forall i :: 0 <= i < |fl| ==> fl[i].id != id)
  {
    hide CacheInv, Local, OthersShrink, Frees, MaybeFree, Outside;
    NotGhost(mid, id);
    PinKeeps(mid, id, -1);
    PinnedStays(c, mid, id);
    var p, q := c.pieces[id], mid.pieces[id];
    var e := Pin(mid, id, -1);
    LocalShrunk(p.(pieceRefcount := p.pieceRefcount - 1), q.(pieceRefcount := q.pieceRefcount - 1), id, fl, log, hungAt, c.blockSize);
    hide Shrunk;
    MaybeFreeLemma(e, id);
    LocalFrees(e, MaybeFree(e, id), id, fl, log, hungAt);
    OthersEvict(c, mid, id);
    OthersFree(e, MaybeFree(e, id), id);
    OthersTrans(c, mid, e, id);
    OthersTrans(c, e, MaybeFree(e, id), id);
  }

  /** The same for a caller that holds no pin. */
  lemma LeftLocal(c: Cache, landed: Cache, mid: Cache, id: PieceId, fl: seq<Flight>, log: seq<Event>, hungAt: map<nat, nat>)
    requires CacheInv(c) && id in c.pieces && Local(c.pieces[id], id, fl, log, hungAt, c.blockSize)
    requires CacheInv(landed) && Frees(c, landed, id) && id in landed.pieces
    requires CacheInv(mid) && Evicts(MaybeFree(landed, id), mid)
    ensures OthersShrink(c, mid, id)
    ensures id in mid.pieces ==> Local(mid.pieces[id], id, fl, log, hungAt, mid.blockSize) && mid.pieces[id].readJobs == c.pieces[id].readJobs
    ensures id !in mid.pieces ==> c.pieces[id].readJobs == [] && forall i :: 0 <= i < |fl| ==> fl[i].id != id
  {
    hide CacheInv, Local, OthersShrink, Frees, MaybeFree, Shrunk, PieceOk, Outside;
    MaybeFreeLemma(landed, id);
    var d := MaybeFree(landed, id);
    LocalFrees(c, landed, id, fl, log, hungAt);
    LocalFrees(landed, d, id, fl, log, hungAt);
    OthersFree(c, landed, id);
    OthersFree(landed, d, id);
    OthersEvict(d, mid, id);
    OthersTrans(c, landed, d, id);
    OthersTrans(c, d, mid, id);
    SameBlockSize(d, mid, id);
    if id in mid.pieces {
      LocalShrunk(d.pieces[id], mid.pieces[id], id, fl, log, hungAt, d.blockSize);
      ShrunkReads(d.pieces[id], mid.pieces[id]);
    } else if id in d.pieces {
      PieceFacts(d, id);
      assert OkToEvict(d.pieces[id], true);
      forall i | 0 <= i < |fl| ensures fl[i].id != id { NoFlights(d.pieces[id], id, fl, log, hungAt, d.blockSize, i); }
    }
  }

  lemma ShrunkReads(p: Piece, q: Piece)
    requires Shrunk(p, q)
    ensures q.readJobs == p.readJobs
  {}

  lemma FinishPiece(s: State, i: nat, mid: Cache, now: int)
    requires Inv(s) && CanFinish(s, i, mid, now)
    ensures var d := FlushFinish(s, i, mid, now).c; var id := s.fl[i].id; var gl := Drop(s.fl, i);
      && CacheInv(d) && OthersShrink(s.c, d, id)
      && (id in d.pieces ==> Local(d.pieces[id], id, gl, s.log, s.hungAt, d.blockSize)
                             && d.pieces[id].readJobs == s.c.pieces[id].readJobs)
      && (id !in d.pieces ==> s.c.pieces[id].readJobs == [] && forall j :: 0 <= j < |gl| ==> gl[j].id != id)
  {
    hide CacheInv, Local, LogOk, Ledger, OthersShrink, Landed, Released, Evicts, EditAll, PieceLoads, Unfreed, MaybeFree, Frees, Completions;
    var f := s.fl[i];
    var p := s.c.pieces[f.id];
    InBounds(p, f.blocks, EndFlush);
    UnfreedKeeps(s.c, f.id, f.blocks, f.kind.failed, now);
    LandedKeeps(s.c, f.id, f.blocks, f.kind.failed, now);
    PieceFacts(s.c, f.id);
    FlightPins(s, i);
    var c := Unfreed(s.c, f.id, f.blocks, f.kind.failed, now);
    var q := c.pieces[f.id];
    EditAllFields(p, f.blocks);
    FinishReads(p, f.blocks);
    FinishLocal(p, q.(pieceRefcount := p.pieceRefcount - Pins(f.kind.pinned)), s.fl, i, s.log, s.hungAt, s.c.blockSize);
    hide Editable, Remaining;
    assert c.blockSize == s.c.blockSize by { SameBlockSize(s.c, c, f.id); }
    if f.kind.pinned {
      PinnedNotFreed(c, f.id);
      ReleasedLocal(c, mid, f.id, Drop(s.fl, i), s.log, s.hungAt);
      OthersTrans(s.c, c, Released(mid, f.id), f.id);
    } else {
      LeftLocal(c, Landed(s.c, f.id, f.blocks, f.kind.failed, now), mid, f.id, Drop(s.fl, i), s.log, s.hungAt);
      OthersTrans(s.c, c, mid, f.id);
    }
  }

  lemma FlightPins(s: State, i: nat)
    requires Inv(s) && i < |s.fl| && s.fl[i].kind.Flushing? && s.fl[i].id in s.c.pieces
    ensures s.c.pieces[s.fl[i].id].pieceRefcount >= Pins(s.fl[i].kind.pinned)
  {
    hide CacheInv, LogOk, Ledger, Local, PieceOk;
    PieceFacts(s.c, s.fl[i].id);
    FlightBlocks(s.c.pieces[s.fl[i].id], s.fl, i, s.log, s.hungAt, s.c.blockSize);
  }

  lemma FlushFinishKeeps(s: State, i: nat, mid: Cache, now: int)
    requires Inv(s) && CanFinish(s, i, mid, now)
    ensures Inv(FlushFinish(s, i, mid, now))
  {
    hide CacheInv, Local, LogOk, OthersShrink, SameElsewhere, Issued, Landed, Released, Evicts, EditAll, Completions, Stays, MaybeFree;
    var f := s.fl[i];
    var p := s.c.pieces[f.id];
    InBounds(p, f.blocks, EndFlush);
    FinishPiece(s, i, mid, now);
    ElsewhereDrop(s.fl, i);
    var t := FlushFinish(s, i, mid, now);
    FinishLog(p, s.fl, i, s.log, s.hungAt, s.c.blockSize);
    hide Editable;
    LocalLater(t, f.id, s.log);
    forall j: ReadJob { IssuedDrop(s.fl, i, j); }
    Assemble(s, t, f.id);
  }

  lemma FinishReads(p: Piece, ks: seq<nat>)
    requires Editable(p, ks, EndFlush)
    ensures EditAll(p, ks, EndFlush).readJobs == p.readJobs
  {
    EditAllLemma(p, ks, EndFlush);
    hide EditAll;
  }

  lemma LocalLater(t: State, id: PieceId, log: seq<Event>)
    requires id in t.c.pieces ==> Local(t.c.pieces[id], id, t.fl, log, t.hungAt, t.c.blockSize)
    requires log <= t.log
    ensures id in t.c.pieces ==> Local(t.c.pieces[id], id, t.fl, t.log, t.hungAt, t.c.blockSize)
  {
    if id in t.c.pieces {
      LocalFrame(t.c.pieces[id], id, t.fl, t.fl, log, t.log, t.hungAt, t.hungAt, t.c.blockSize);
    }
  }
}
