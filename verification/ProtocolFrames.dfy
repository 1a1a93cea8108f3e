/** What a step that concerns one piece leaves alone. */
module ProtocolFrames {
  import opened CacheModel
  import opened CacheSpec
  import opened BlockEdits
  import opened CacheOps
  import opened Eviction
  import opened DiskProtocol

  /** Pieces other than `id` lost at most evictable blocks, or were unused and dropped. */
  ghost predicate OthersShrink(c: Cache, d: Cache, id: PieceId) {
    && d.blockSize == c.blockSize
    && (forall x :: x in d.pieces && x != id ==> x in c.pieces && Shrunk(c.pieces[x], d.pieces[x]))
    && (forall x :: x in c.pieces && x != id && x !in d.pieces ==> Droppable(c.pieces[x]))
  }

  /** Flights on pieces other than `id` are the same. */
  ghost predicate SameElsewhere(fl: seq<Flight>, gl: seq<Flight>, id: PieceId) {
    && (forall x, k :: x != id ==> Loads(gl, x, k) == Loads(fl, x, k))
    && (forall i :: 0 <= i < |gl| && gl[i].id != id ==> gl[i] in fl)
    && (forall j: ReadJob :: j.piece != id ==> Issued(gl, j) == Issued(fl, j))
  }

  ghost predicate Later(log: seq<Event>, newLog: seq<Event>, hungAt: map<nat, nat>, newHungAt: map<nat, nat>) {
    log <= newLog && forall j :: j in hungAt ==> j in newHungAt && newHungAt[j] == hungAt[j]
  }

  lemma WroteSinceLater(log: seq<Event>, newLog: seq<Event>, mark: nat, id: PieceId, b: nat, data: nat)
    requires WroteSince(log, mark, id, b, data) && log <= newLog
    ensures WroteSince(newLog, mark, id, b, data)
  {
    var m :| mark <= m < |log| && log[m] == Wrote(id, b, data);
    assert newLog[m] == log[m];
  }

  lemma FlightLater(f: Flight, p: Piece, log: seq<Event>, hungAt: map<nat, nat>, newLog: seq<Event>, newHungAt: map<nat, nat>,
                    blockSize: int)
    requires FlightOk(f, p, log, hungAt, blockSize) && Later(log, newLog, hungAt, newHungAt)
    ensures FlightOk(f, p, newLog, newHungAt, blockSize)
  {
    match f.kind
    case Flushing(done, failed, mark, _) =>
      hide WroteSince, Holds, Off;
      forall i | 0 <= i < done && !failed
        ensures WroteSince(newLog, mark, f.id, f.blocks[i], f.bufs[i].data)
      {
        WroteSinceLater(log, newLog, mark, f.id, f.blocks[i], f.bufs[i].data);
      }
    case _ =>
  }

  /** A piece whose flights did not change. */
  lemma LocalFrame(p: Piece, id: PieceId, fl: seq<Flight>, gl: seq<Flight>, log: seq<Event>, newLog: seq<Event>,
                   hungAt: map<nat, nat>, newHungAt: map<nat, nat>, blockSize: int)
    requires Local(p, id, fl, log, hungAt, blockSize)
    requires forall k :: Loads(gl, id, k) == Loads(fl, id, k)
    requires forall i :: 0 <= i < |gl| && gl[i].id == id ==> gl[i] in fl
    requires Later(log, newLog, hungAt, newHungAt)
    ensures Local(p, id, gl, newLog, newHungAt, blockSize)
  {
    hide FlightOk, HashOk, Matches;
    forall i | 0 <= i < |gl| && gl[i].id == id ensures FlightOk(gl[i], p, newLog, newHungAt, blockSize) {
      var j :| 0 <= j < |fl| && fl[j] == gl[i];
      FlightLater(fl[j], p, log, hungAt, newLog, newHungAt, blockSize);
    }
  }

  lemma HoldsShrunk(f: Flight, p: Piece, q: Piece, fl: seq<Flight>)
    requires Holds(f, p) && Shrunk(p, q) && f in fl && PieceLoads(p, f.id, fl)
    ensures Holds(f, q)
  {
    forall i | 0 <= i < |f.blocks| ensures q.blocks[f.blocks[i]].buf == f.bufs[i] {
      var k := f.blocks[i];
      var j :| 0 <= j < |fl| && fl[j] == f;
      assert k in f.blocks;
      LoadsAtLeast(fl, j, f.id, k);
      assert Matches(p, k, Loads(fl, f.id, k));
      assert p.blocks[k].refcount >= 1;
    }
  }

  /** Eviction from a piece disturbs nobody who is using it. */
  lemma LocalShrunk(p: Piece, q: Piece, id: PieceId, fl: seq<Flight>, log: seq<Event>, hungAt: map<nat, nat>, blockSize: int)
    requires Local(p, id, fl, log, hungAt, blockSize) && Shrunk(p, q)
    ensures Local(q, id, fl, log, hungAt, blockSize)
  {
    hide Holds, OkToEvict, WroteSince, Loads;
    forall k | 0 <= k < |q.blocks| ensures Matches(q, k, Loads(fl, id, k)) {
      assert Matches(p, k, Loads(fl, id, k));
    }
    forall i | 0 <= i < |fl| && fl[i].id == id ensures FlightOk(fl[i], q, log, hungAt, blockSize) {
      assert FlightOk(fl[i], p, log, hungAt, blockSize);
      HoldsShrunk(fl[i], p, q, fl);
    }
  }

  /** A piece that may be dropped has no flight on it. */
  lemma NoFlights(p: Piece, id: PieceId, fl: seq<Flight>, log: seq<Event>, hungAt: map<nat, nat>, blockSize: int, i: nat)
    requires Local(p, id, fl, log, hungAt, blockSize) && PieceOk(p, blockSize) && OkToEvict(p, true)
    requires i < |fl|
    ensures fl[i].id != id
  {
    hide Loads, WroteSince;
    if fl[i].id == id {
      AllUnreferenced(p, blockSize);
      var b := if fl[i].kind.Referencing? then fl[i].blocks[0] else 0;
      assert fl[i].kind.Referencing? ==> b in fl[i].blocks;
      assert Matches(p, b, Loads(fl, id, b));
      LoadsAtLeast(fl, i, id, b);
    }
  }

  lemma OthersLocal(s: State, d: Cache, gl: seq<Flight>, newLog: seq<Event>, newHungAt: map<nat, nat>, id: PieceId, x: PieceId)
    requires Inv(s) && OthersShrink(s.c, d, id) && SameElsewhere(s.fl, gl, id) && Later(s.log, newLog, s.hungAt, newHungAt)
    requires x in d.pieces && x != id
    ensures x in s.c.pieces && Local(d.pieces[x], x, gl, newLog, newHungAt, d.blockSize)
  {
    hide CacheInv, Shrunk, Droppable, LogOk, Ledger;
    LocalShrunk(s.c.pieces[x], d.pieces[x], x, s.fl, s.log, s.hungAt, d.blockSize);
    LocalFrame(d.pieces[x], x, s.fl, gl, s.log, newLog, s.hungAt, newHungAt, d.blockSize);
    hide Local;
  }

  lemma OthersPresent(s: State, d: Cache, gl: seq<Flight>, id: PieceId, i: nat)
    requires Inv(s) && OthersShrink(s.c, d, id) && SameElsewhere(s.fl, gl, id)
    requires i < |gl| && gl[i].id != id
    ensures gl[i].id in d.pieces
  {
    hide CacheInv, LogOk, Ledger, Shrunk;
    var x := gl[i].id;
    var j :| 0 <= j < |s.fl| && s.fl[j] == gl[i];
    assert x in s.c.pieces;
    if x !in d.pieces {
      PieceFacts(s.c, x);
      assert OkToEvict(s.c.pieces[x], true);
      NoFlights(s.c.pieces[x], x, s.fl, s.log, s.hungAt, s.c.blockSize, j);
    }
    hide Local;
  }

  /** The read jobs of pieces other than `id` are where they were. */
  lemma OthersLedger(s: State, d: Cache, gl: seq<Flight>, id: PieceId, j: ReadJob)
    requires Inv(s) && OthersShrink(s.c, d, id) && SameElsewhere(s.fl, gl, id) && j.piece != id
    ensures Issued(gl, j) == Issued(s.fl, j) && Queued(d, j) == Queued(s.c, j)
  {
    hide CacheInv, LogOk, Ledger, Local;
    var x := j.piece;
    assert x in d.pieces ==> x in s.c.pieces && d.pieces[x].readJobs == s.c.pieces[x].readJobs;
    assert x in s.c.pieces && x !in d.pieces ==> s.c.pieces[x].readJobs == [];
    hide Issued;
  }

  /** A step on piece `id` keeps the invariant if it keeps it for that piece. */
  lemma Assemble(s: State, t: State, id: PieceId)
    requires Inv(s) && CacheInv(t.c) && OthersShrink(s.c, t.c, id) && SameElsewhere(s.fl, t.fl, id)
    requires Later(s.log, t.log, s.hungAt, t.hungAt) && LogOk(t.log)
    requires id in t.c.pieces ==> Local(t.c.pieces[id], id, t.fl, t.log, t.hungAt, t.c.blockSize)
    requires id !in t.c.pieces ==> forall i :: 0 <= i < |t.fl| ==> t.fl[i].id != id
    requires forall j: ReadJob :: j.piece == id ==>
      t.submitted[j] == t.completed[j] + t.failed[j] + Issued(t.fl, j) + Queued(t.c, j)
    requires forall j: ReadJob :: j.piece != id ==>
      t.submitted[j] == s.submitted[j] && t.completed[j] == s.completed[j] && t.failed[j] == s.failed[j]
    ensures Inv(t)
  {
    hide CacheInv, OthersShrink, SameElsewhere, Later, LogOk, Local, Issued, Queued;
    forall x | x in t.c.pieces ensures Local(t.c.pieces[x], x, t.fl, t.log, t.hungAt, t.c.blockSize) {
      if x != id { OthersLocal(s, t.c, t.fl, t.log, t.hungAt, id, x); }
    }
    forall i | 0 <= i < |t.fl| ensures t.fl[i].id in t.c.pieces {
      if t.fl[i].id != id { OthersPresent(s, t.c, t.fl, id, i); }
    }
    forall j: ReadJob ensures t.submitted[j] == t.completed[j] + t.failed[j] + Issued(t.fl, j) + Queued(t.c, j) {
      if j.piece != id { OthersLedger(s, t.c, t.fl, id, j); }
    }
  }

  // ---------------------------------------------- flights come, change and go

  lemma ElsewhereSnoc(fl: seq<Flight>, f: Flight)
    requires OwnJobs(f)
    ensures SameElsewhere(fl, fl + [f], f.id)
  {
    hide Loads, Issued;
    forall x, k | x != f.id ensures Loads(fl + [f], x, k) == Loads(fl, x, k) { LoadsSnoc(fl, f, x, k); }
    forall j: ReadJob ensures j.piece != f.id ==> Issued(fl + [f], j) == Issued(fl, j) { IssuedSnoc(fl, f, j); }
  }

  lemma IssuedSnoc(fl: seq<Flight>, f: Flight, j: ReadJob)
    ensures Issued(fl + [f], j) == Issued(fl, j) + Carries(f, j)
  {
    assert (fl + [f])[..|fl|] == fl;
  }

  lemma {:induction false} IssuedDrop(fl: seq<Flight>, i: nat, j: ReadJob)
    requires i < |fl|
    ensures Issued(Drop(fl, i), j) == Issued(fl, j) - Carries(fl[i], j)
  {
    var n := |fl| - 1;
    if i == n {
      assert Drop(fl, i) == fl[..n];
    } else {
      assert Drop(fl, i) == Drop(fl[..n], i) + [fl[n]];
      IssuedSnoc(Drop(fl[..n], i), fl[n], j);
      IssuedDrop(fl[..n], i, j);
    }
  }

  lemma {:induction false} IssuedReplace(fl: seq<Flight>, i: nat, f: Flight, j: ReadJob)
    requires i < |fl|
    ensures Issued(fl[i := f], j) ==
      Issued(fl, j) - Carries(fl[i], j) + Carries(f, j)
  {
    var n := |fl| - 1;
    if i == n {
      assert fl[i := f][..n] == fl[..n];
    } else {
      assert fl[i := f][..n] == fl[..n][i := f];
      IssuedReplace(fl[..n], i, f, j);
    }
  }

  lemma ElsewhereDrop(fl: seq<Flight>, i: nat)
    requires i < |fl| && OwnJobs(fl[i])
    ensures SameElsewhere(fl, Drop(fl, i), fl[i].id)
  {
    hide Loads, Issued;
    forall x, k | x != fl[i].id ensures Loads(Drop(fl, i), x, k) == Loads(fl, x, k) { LoadsDrop(fl, i, x, k); }
    forall j: ReadJob ensures j.piece != fl[i].id ==> Issued(Drop(fl, i), j) == Issued(fl, j) { IssuedDrop(fl, i, j); }
  }

  lemma ElsewhereReplace(fl: seq<Flight>, i: nat, f: Flight)
    requires i < |fl| && f.id == fl[i].id
    requires OwnJobs(fl[i]) && OwnJobs(f)
    ensures SameElsewhere(fl, fl[i := f], f.id)
  {
    hide Loads, Issued;
    forall x, k | x != f.id ensures Loads(fl[i := f], x, k) == Loads(fl, x, k) { LoadsReplace(fl, i, f, x, k); }
    forall j: ReadJob ensures j.piece != f.id ==> Issued(fl[i := f], j) == Issued(fl, j) { IssuedReplace(fl, i, f, j); }
  }

  lemma OthersSame(c: Cache, d: Cache, id: PieceId)
    requires d.blockSize == c.blockSize
    requires forall x :: x != id ==> (x in d.pieces <==> x in c.pieces)
    requires forall x :: x != id && x in d.pieces && x in c.pieces ==> d.pieces[x] == c.pieces[x]
    ensures OthersShrink(c, d, id)
  {
    forall x | x in d.pieces && x != id ensures Shrunk(c.pieces[x], d.pieces[x]) { ShrunkRefl(c.pieces[x]); }
    hide Shrunk;
  }

  lemma OthersTrans(c: Cache, d: Cache, e: Cache, id: PieceId)
    requires OthersShrink(c, d, id) && OthersShrink(d, e, id)
    ensures OthersShrink(c, e, id)
  {
    forall x | x in e.pieces && x != id ensures x in c.pieces && Shrunk(c.pieces[x], e.pieces[x]) {
      ShrunkTrans(c.pieces[x], d.pieces[x], e.pieces[x]);
    }
    forall x | x in c.pieces && x != id && x !in e.pieces ensures Droppable(c.pieces[x]) {
      if x in d.pieces { DroppableTrans(c.pieces[x], d.pieces[x]); }
    }
    hide Shrunk, Droppable;
  }

  lemma OthersEvict(c: Cache, d: Cache, id: PieceId)
    requires Evicts(c, d)
    ensures OthersShrink(c, d, id)
  {
    hide Shrunk, Droppable, Outside;
  }

  lemma OthersFree(c: Cache, d: Cache, id: PieceId)
    requires Frees(c, d, id)
    ensures OthersShrink(c, d, id)
  {
    hide Shrunk, Droppable, Idle;
  }

  lemma SameBlockSize(c: Cache, d: Cache, id: PieceId)
    requires OthersShrink(c, d, id)
    ensures d.blockSize == c.blockSize
  {}

  lemma PinKeeps(c: Cache, id: PieceId, delta: int)
    requires CacheInv(c) && id in c.pieces && c.pieces[id].pieceRefcount + delta >= 0
    requires !IsGhost(c.pieces[id].cacheState)
    ensures CacheInv(Pin(c, id, delta)) && OthersShrink(c, Pin(c, id, delta), id)
  {
    hide CacheInv, PieceOk, OthersShrink;
    PieceFacts(c, id);
    SetPieceKeeps(c, id, c.pieces[id].(pieceRefcount := c.pieces[id].pieceRefcount + delta));
    OthersSame(c, Pin(c, id, delta), id);
  }

  /** A piece that is held or has blocks is in no ghost list. */
  lemma NotGhost(c: Cache, id: PieceId)
    requires CacheInv(c) && id in c.pieces
    requires c.pieces[id].pieceRefcount > 0 || c.pieces[id].hashing || c.pieces[id].outstandingRead ||
             exists k :: 0 <= k < |c.pieces[id].blocks| && c.pieces[id].blocks[k].buf.Buf?
    ensures !IsGhost(c.pieces[id].cacheState)
  {
    hide CacheInv, PieceOk;
    PieceFacts(c, id);
    if IsGhost(c.pieces[id].cacheState) { NoBlocksPiece(c.pieces[id], c.blockSize); }
  }

  /** Only fields that nobody's work depends on changed. */
  lemma LocalSame(p: Piece, q: Piece, id: PieceId, fl: seq<Flight>, log: seq<Event>, hungAt: map<nat, nat>, blockSize: int)
    requires Local(p, id, fl, log, hungAt, blockSize)
    requires q.blocks == p.blocks && q.size == p.size && q.pieceRefcount == p.pieceRefcount && q.hashing == p.hashing
    requires q.outstandingRead == p.outstandingRead && q.hash == p.hash && q.jobs == p.jobs && q.readJobs == p.readJobs
    ensures Local(q, id, fl, log, hungAt, blockSize)
  {
    hide Holds, WroteSince, Loads;
    forall i | 0 <= i < |fl| && fl[i].id == id ensures FlightOk(fl[i], q, log, hungAt, blockSize) {
      assert FlightOk(fl[i], p, log, hungAt, blockSize);
      assert Holds(fl[i], q) by { HoldsBufs(fl[i], p, q); }
    }
    forall k | 0 <= k < |q.blocks| ensures Matches(q, k, Loads(fl, id, k)) { assert Matches(p, k, Loads(fl, id, k)); }
  }

  lemma HoldsBufs(f: Flight, p: Piece, q: Piece)
    requires Holds(f, p) && |q.blocks| == |p.blocks|
    requires forall k :: 0 <= k < |p.blocks| ==> q.blocks[k].buf == p.blocks[k].buf
    ensures Holds(f, q)
  {}

  /** An idle piece may be emptied. */
  lemma LocalEmptied(p: Piece, q: Piece, id: PieceId, fl: seq<Flight>, log: seq<Event>, hungAt: map<nat, nat>, blockSize: int)
    requires Local(p, id, fl, log, hungAt, blockSize) && PieceOk(p, blockSize) && OkToEvict(p, true)
    requires |q.blocks| == |p.blocks| && (forall k :: 0 <= k < |q.blocks| ==> q.blocks[k] == EMPTY)
    requires q.jobs == [] && q.readJobs == p.readJobs && q.pieceRefcount == p.pieceRefcount && q.size == p.size
    requires q.hashing == p.hashing && q.outstandingRead == p.outstandingRead && (q.hash.None? || q.hash == p.hash)
    ensures Local(q, id, fl, log, hungAt, blockSize)
  {
    hide WroteSince, FlightOk, Loads;
    forall i | 0 <= i < |fl| ensures fl[i].id != id { NoFlights(p, id, fl, log, hungAt, blockSize, i); }
    forall k | 0 <= k < |q.blocks| ensures Matches(q, k, Loads(fl, id, k)) { LoadsNone(fl, id, k); }
  }

  /** maybe_free_piece at the end of a step. */
  lemma LocalFrees(c: Cache, d: Cache, id: PieceId, fl: seq<Flight>, log: seq<Event>, hungAt: map<nat, nat>)
    requires CacheInv(c) && Frees(c, d, id) && id in c.pieces
    requires Local(c.pieces[id], id, fl, log, hungAt, c.blockSize)
    ensures id in d.pieces ==> Local(d.pieces[id], id, fl, log, hungAt, d.blockSize)
    ensures id in d.pieces ==> d.pieces[id].readJobs == c.pieces[id].readJobs
    ensures id !in d.pieces ==> c.pieces[id].readJobs == [] && forall i :: 0 <= i < |fl| ==> fl[i].id != id
  {
    hide CacheInv, PieceOk, Local, Shrunk, Droppable;
    PieceFacts(c, id);
    if id in d.pieces {
      if d.pieces[id] != c.pieces[id] { LocalEmptied(c.pieces[id], d.pieces[id], id, fl, log, hungAt, c.blockSize); }
    } else {
      forall i | 0 <= i < |fl| ensures fl[i].id != id {
        NoFlights(c.pieces[id], id, fl, log, hungAt, c.blockSize, i);
      }
    }
  }
}
