/** The steps that feed cached and read-back blocks to a piece's partial hash:
    kick_hasher, do_hash and async_hash. */
module HashSteps {
  import opened CacheModel
  import opened CacheSpec
  import opened BlockEdits
  import opened CacheOps
  import opened Eviction
  import opened DiskProtocol
  import opened ProtocolFrames
  import opened FlushSteps
  import opened CacheSteps

  // ------------------------------------------------------- hash offset and cursor

  lemma OffRange(m: nat, blockSize: int, size: int)
    requires blockSize > 0 && size > 0
    ensures 0 <= Off(m, blockSize, size) <= size
  {}

  /** While the hash is short of the piece its offset is a block boundary, and the
      cursor is the number of blocks fed so far. */
  lemma CursorFed(m: nat, blocks: nat, blockSize: int, size: int)
    requires blockSize > 0 && m <= blocks && size <= blocks * blockSize
    requires Off(m, blockSize, size) < size
    ensures Off(m, blockSize, size) / blockSize == m && m < blocks
  {
    assert m * blockSize < size;
    DivExact(m, blockSize);
    if m >= blocks { MulMono(blocks, m, blockSize); }
  }

  lemma DivExact(m: nat, d: int)
    requires d > 0
    ensures (m * d) / d == m
  {
    var q, r := (m * d) / d, (m * d) % d;
    assert m * d == q * d + r;
    assert (m - q) * d == r;
    if m - q >= 1 { MulMono(1, m - q, d); }
    if m - q <= -1 { MulMono(m - q, -1, d); }
  }

  /** A hash whose offset reached the end was fed every block. */
  lemma FullFed(m: nat, blocks: nat, blockSize: int, size: int)
    requires blockSize > 0 && m <= blocks && (blocks - 1) * blockSize < size
    requires Off(m, blockSize, size) == size
    ensures m == blocks
  {
    if m <= blocks - 1 { MulMono(m, blocks - 1, blockSize); }
  }

  // ------------------------------------------------------------ general lemmas

  /** No flight but a flush holds a block for writing, so whoever else holds it has a
      reference of its own. */
  lemma {:induction false} RefsCoverFlushes(fl: seq<Flight>, id: PieceId, k: nat)
    ensures Loads(fl, id, k).refs >= Loads(fl, id, k).flushes
  {
    if fl != [] { RefsCoverFlushes(fl[..|fl| - 1], id, k); }
  }

  predicate Hasher(f: Flight) { f.kind.Kicking? || f.kind.Hashing? }

  lemma OneHasher(p: Piece, fl: seq<Flight>, i: nat, j: nat, log: seq<Event>, hungAt: map<nat, nat>, blockSize: int)
    requires i < |fl| && j < |fl| && i != j && fl[j].id == fl[i].id && Hasher(fl[i])
    requires Local(p, fl[i].id, fl, log, hungAt, blockSize) && |p.blocks| > 0
    ensures !Hasher(fl[j]) && p.hashing && p.pieceRefcount >= 1
  {
    hide Loads, WroteSince;
    assert Matches(p, 0, Loads(fl, fl[i].id, 0));
    LoadsAtLeast(fl, i, fl[i].id, 0);
    if i < j { LoadsTwo(fl, i, j, fl[i].id, 0); } else { LoadsTwo(fl, j, i, fl[i].id, 0); }
  }

  lemma HasherFacts(p: Piece, fl: seq<Flight>, i: nat, log: seq<Event>, hungAt: map<nat, nat>, blockSize: int)
    requires i < |fl| && Hasher(fl[i]) && Local(p, fl[i].id, fl, log, hungAt, blockSize) && |p.blocks| > 0
    ensures p.hashing && p.pieceRefcount >= 1 && p.hash.Some? && FlightOk(fl[i], p, log, hungAt, blockSize)
  {
    hide Loads, WroteSince;
    assert Matches(p, 0, Loads(fl, fl[i].id, 0));
    LoadsAtLeast(fl, i, fl[i].id, 0);
  }

  /** A flight that starts by taking a reference to each of its blocks. */
  lemma HeldLocal(p: Piece, q: Piece, f: Flight, fl: seq<Flight>, log: seq<Event>, hungAt: map<nat, nat>, blockSize: int)
    requires Local(p, f.id, fl, log, hungAt, blockSize) && Editable(p, f.blocks, IncRef) && !f.kind.Flushing?
    requires q.blocks == EditAll(p, f.blocks, IncRef).blocks && q.size == p.size && q.jobs == p.jobs && q.readJobs == p.readJobs
    requires p.hash.Some? ==> q.hash == p.hash
    requires q.pieceRefcount == p.pieceRefcount + (if Hasher(f) then 1 else 0)
    requires (if q.hashing then 1 else 0) == (if p.hashing then 1 else 0) + (if Hasher(f) then 1 else 0)
    requires (if q.outstandingRead then 1 else 0) == (if p.outstandingRead then 1 else 0) + LoadOf(f, f.id, 0).reading
    requires FlightOk(f, q, log, hungAt, blockSize) && HashOk(q, blockSize) && FedLogged(q.hash, f.id, log)
    ensures Local(q, f.id, fl + [f], log, hungAt, blockSize)
  {
    hide EditAll, WroteSince, Loads, Holds;
    EditAllLemma(p, f.blocks, IncRef);
    var gl := fl + [f];
    forall k | 0 <= k < |q.blocks| ensures Matches(q, k, Loads(gl, f.id, k)) {
      LoadsSnoc(fl, f, f.id, k);
      assert Matches(p, k, Loads(fl, f.id, k));
    }
    forall i | 0 <= i < |fl| && fl[i].id == f.id ensures FlightOk(fl[i], q, log, hungAt, blockSize) {
      assert FlightOk(fl[i], p, log, hungAt, blockSize);
      HoldsSame(fl[i], p, q);
    }
  }

  /** A flight's blocks may be let go: each still has the reference it took. */
  lemma HeldEditable(p: Piece, fl: seq<Flight>, i: nat, log: seq<Event>, hungAt: map<nat, nat>, blockSize: int)
    requires i < |fl| && !fl[i].kind.Flushing? && Local(p, fl[i].id, fl, log, hungAt, blockSize)
    ensures Editable(p, fl[i].blocks, DecRef)
  {
    hide WroteSince, Loads;
    var f := fl[i];
    assert FlightOk(f, p, log, hungAt, blockSize);
    forall a | 0 <= a < |f.blocks| ensures CanEdit(DecRef, p.blocks[f.blocks[a]]) {
      var k := f.blocks[a];
      assert k in f.blocks;
      LoadsDrop(fl, i, f.id, k);
      RefsCoverFlushes(Drop(fl, i), f.id, k);
      assert Matches(p, k, Loads(fl, f.id, k));
    }
  }

  /** A flight that ends by letting its blocks go. */
  lemma DroppedLocal(p: Piece, q: Piece, fl: seq<Flight>, i: nat, log: seq<Event>, hungAt: map<nat, nat>, blockSize: int)
    requires i < |fl| && !fl[i].kind.Flushing? && Local(p, fl[i].id, fl, log, hungAt, blockSize) && Editable(p, fl[i].blocks, DecRef)
    requires q.blocks == EditAll(p, fl[i].blocks, DecRef).blocks && q.size == p.size && q.jobs == p.jobs && q.readJobs == p.readJobs
    requires |p.blocks| > 0 && (!Hasher(fl[i]) ==> q.hash == p.hash)
    requires q.pieceRefcount == p.pieceRefcount - (if Hasher(fl[i]) then 1 else 0)
    requires (if q.hashing then 1 else 0) == (if p.hashing then 1 else 0) - (if Hasher(fl[i]) then 1 else 0)
    requires (if q.outstandingRead then 1 else 0) == (if p.outstandingRead then 1 else 0) - LoadOf(fl[i], fl[i].id, 0).reading
    requires HashOk(q, blockSize) && FedLogged(q.hash, fl[i].id, log) && (q.readJobs != [] ==> q.outstandingRead)
    ensures Local(q, fl[i].id, Drop(fl, i), log, hungAt, blockSize)
  {
    hide EditAll, WroteSince, Loads, Holds;
    var f := fl[i];
    EditAllLemma(p, f.blocks, DecRef);
    var gl := Drop(fl, i);
    forall k | 0 <= k < |q.blocks| ensures Matches(q, k, Loads(gl, f.id, k)) {
      LoadsDrop(fl, i, f.id, k);
      assert Matches(p, k, Loads(fl, f.id, k));
    }
    forall a | 0 <= a < |gl| && gl[a].id == f.id ensures FlightOk(gl[a], q, log, hungAt, blockSize) {
      var b := if a < i then a else a + 1;
      assert gl[a] == fl[b];
      assert FlightOk(fl[b], p, log, hungAt, blockSize);
      HoldsSame(fl[b], p, q);
      if Hasher(f) { OneHasher(p, fl, i, b, log, hungAt, blockSize); }
    }
  }

  /** A flight takes off. */
  lemma Begins(s: State, d: Cache, f: Flight)
    requires Inv(s) && CacheInv(d) && OthersShrink(s.c, d, f.id) && f.id in d.pieces
    requires Local(d.pieces[f.id], f.id, s.fl + [f], s.log, s.hungAt, d.blockSize)
    requires !f.kind.Reading? && !f.kind.Serving?
    requires d.pieces[f.id].readJobs == if f.id in s.c.pieces then s.c.pieces[f.id].readJobs else []
    ensures Inv(s.(c := d, fl := s.fl + [f]))
  {
    hide CacheInv, Local, LogOk, OthersShrink, SameElsewhere, Issued;
    var t := s.(c := d, fl := s.fl + [f]);
    ElsewhereSnoc(s.fl, f);
    forall j: ReadJob { IssuedSnoc(s.fl, f, j); }
    LedgerSame(s, t, f.id);
    Assemble(s, t, f.id);
  }

  /** A flight goes on. */
  lemma Continues(s: State, d: Cache, i: nat, f: Flight)
    requires Inv(s) && CacheInv(d) && i < |s.fl| && f.id == s.fl[i].id && OthersShrink(s.c, d, f.id) && f.id in d.pieces
    requires Local(d.pieces[f.id], f.id, s.fl[i := f], s.log, s.hungAt, d.blockSize)
    requires OwnJobs(f) && OwnJobs(s.fl[i]) && forall j :: Carries(f, j) == Carries(s.fl[i], j)
    requires f.id in s.c.pieces && d.pieces[f.id].readJobs == s.c.pieces[f.id].readJobs
    ensures Inv(s.(c := d, fl := s.fl[i := f]))
  {
    hide CacheInv, Local, LogOk, OthersShrink, SameElsewhere, Issued;
    var t := s.(c := d, fl := s.fl[i := f]);
    ElsewhereReplace(s.fl, i, f);
    forall j: ReadJob { IssuedReplace(s.fl, i, f, j); }
    LedgerSame(s, t, f.id);
    Assemble(s, t, f.id);
  }

  /** A flight lands, and may leave events in the log. */
  lemma Ends(s: State, d: Cache, i: nat, more: seq<Event>)
    requires Inv(s) && CacheInv(d) && i < |s.fl| && OthersShrink(s.c, d, s.fl[i].id) && LogOk(s.log + more)
    requires s.fl[i].id in d.pieces ==> Local(d.pieces[s.fl[i].id], s.fl[i].id, Drop(s.fl, i), s.log, s.hungAt, d.blockSize)
    requires s.fl[i].id !in d.pieces ==> forall a :: 0 <= a < |Drop(s.fl, i)| ==> Drop(s.fl, i)[a].id != s.fl[i].id
    requires !s.fl[i].kind.Reading? && !s.fl[i].kind.Serving?
    requires s.fl[i].id in s.c.pieces
    requires s.c.pieces[s.fl[i].id].readJobs == if s.fl[i].id in d.pieces then d.pieces[s.fl[i].id].readJobs else []
    ensures Inv(s.(c := d, fl := Drop(s.fl, i), log := s.log + more))
  {
    hide CacheInv, Local, LogOk, OthersShrink, SameElsewhere, Issued;
    var t := s.(c := d, fl := Drop(s.fl, i), log := s.log + more);
    ElsewhereDrop(s.fl, i);
    forall j: ReadJob { IssuedDrop(s.fl, i, j); }
    LedgerSame(s, t, s.fl[i].id);
    LocalLater(t, s.fl[i].id, s.log);
    Assemble(s, t, s.fl[i].id);
  }

  // ---------------------------------------------------------- kick_hasher: start

  /** Where the stretch of cached blocks that starts at `from` ends. */
  function RunFrom(bs: seq<Block>, from: nat): (end: nat)
    requires from <= |bs|
    ensures from <= end <= |bs|
    ensures forall k :: from <= k < end ==> bs[k].buf.Buf?
    ensures end < |bs| ==> bs[end].buf.Null?
    decreases |bs| - from
  {
    if from < |bs| && bs[from].buf.Buf? then RunFrom(bs, from + 1) else from
  }

  function Range(a: nat, b: nat): (r: seq<nat>)
    requires a <= b
    ensures |r| == b - a && forall i :: 0 <= i < |r| ==> r[i] == a + i
  {
    seq(b - a, i => a + i)
  }

  ghost predicate CanKick(s: State, id: PieceId) {
    && id in s.c.pieces && s.c.blockSize > 0
    && var p := s.c.pieces[id];
       && p.hash.Some? && !p.hashing && 0 <= p.hash.value.offset < p.size
       && var from := p.hash.value.offset / s.c.blockSize;
          from <= |p.blocks| && RunFrom(p.blocks, from) > from
  }

  lemma RunEditable(p: Piece, from: nat)
    requires from <= |p.blocks|
    ensures Editable(p, Range(from, RunFrom(p.blocks, from)), IncRef)
  {}

  /** The piece while a hasher holds blocks `ks` of it. */
  ghost function Locked(c: Cache, id: PieceId, ks: seq<nat>): Cache
    requires id in c.pieces && Editable(c.pieces[id], ks, IncRef)
  {
    var d := EditBlocks(c, id, ks, IncRef);
    SetPiece(d, id, d.pieces[id].(hashing := true, pieceRefcount := d.pieces[id].pieceRefcount + 1))
  }

  lemma LockedKeeps(c: Cache, id: PieceId, ks: seq<nat>)
    requires CacheInv(c) && id in c.pieces && Editable(c.pieces[id], ks, IncRef) && !IsGhost(c.pieces[id].cacheState)
    ensures var d := Locked(c, id, ks); var p, q := c.pieces[id], d.pieces[id];
      && CacheInv(d) && d.pieces == c.pieces[id := q] && d.blockSize == c.blockSize && d.clock == c.clock
      && q == EditAll(p, ks, IncRef).(hashing := true, pieceRefcount := p.pieceRefcount + 1)
      && q == p.(blocks := q.blocks, numBlocks := q.numBlocks, numDirty := q.numDirty, pinned := q.pinned, refcount := q.refcount,
                 hashing := true, pieceRefcount := p.pieceRefcount + 1)
  {
    hide CacheInv, PieceOk, EditAll, Put, Editable;
    EditKeeps(c, id, ks, IncRef);
    EditEffect(c, id, ks, IncRef);
    var d := EditBlocks(c, id, ks, IncRef);
    PieceFacts(d, id);
    SetPieceKeeps(d, id, Locked(c, id, ks).pieces[id]);
  }

  ghost function KickStart(s: State, id: PieceId): State
    requires CanKick(s, id)
  {
    var p := s.c.pieces[id];
    var from := p.hash.value.offset / s.c.blockSize;
    RunEditable(p, from);
    var ks := Range(from, RunFrom(p.blocks, from));
    s.(c := Locked(s.c, id, ks), fl := s.fl + [Flight(Kicking(from, from), id, ks, BufsAt(p.blocks, ks))])
  }

  lemma HeldBufs(p: Piece, q: Piece, f: Flight)
    requires Editable(p, f.blocks, IncRef) && q.blocks == EditAll(p, f.blocks, IncRef).blocks
    requires forall i :: 0 <= i < |f.blocks| ==> f.blocks[i] < |p.blocks|
    requires f.bufs == BufsAt(p.blocks, f.blocks)
    ensures Holds(f, q) && |q.blocks| == |p.blocks|
  {
    hide EditAll;
    EditAllLemma(p, f.blocks, IncRef);
    forall i | 0 <= i < |f.blocks| ensures q.blocks[f.blocks[i]].buf == f.bufs[i] && f.bufs[i].Buf? {
      assert CanEdit(IncRef, p.blocks[f.blocks[i]]);
      assert f.bufs[i] == p.blocks[f.blocks[i]].buf;
      assert f.blocks[i] in f.blocks;
    }
    hide CanEdit, Edited, BufsAt;
  }

  /** The cursor of a hash nobody works on, and that is short of the piece. */
  lemma CursorLemma(p: Piece, blockSize: int)
    requires PieceOk(p, blockSize) && HashOk(p, blockSize) && blockSize > 0
    requires p.hash.Some? && !p.hashing && p.hash.value.offset < p.size
    ensures var m := |p.hash.value.fed|; 0 <= p.hash.value.offset && p.hash.value.offset / blockSize == m < |p.blocks|
  {
    hide Tally;
    CursorFed(|p.hash.value.fed|, |p.blocks|, blockSize, p.size);
    hide Off;
  }

  lemma KickLocal(p: Piece, q: Piece, id: PieceId, fl: seq<Flight>, log: seq<Event>, hungAt: map<nat, nat>, blockSize: int)
    requires Local(p, id, fl, log, hungAt, blockSize) && PieceOk(p, blockSize) && blockSize > 0
    requires p.hash.Some? && !p.hashing && p.hash.value.offset < p.size
    requires var from := p.hash.value.offset / blockSize;
      && 0 <= from <= |p.blocks| && Editable(p, Range(from, RunFrom(p.blocks, from)), IncRef)
      && q == EditAll(p, Range(from, RunFrom(p.blocks, from)), IncRef).(hashing := true, pieceRefcount := p.pieceRefcount + 1)
    ensures var from := p.hash.value.offset / blockSize; var ks := Range(from, RunFrom(p.blocks, from));
      Local(q, id, fl + [Flight(Kicking(from, from), id, ks, BufsAt(p.blocks, ks))], log, hungAt, blockSize)
  {
    hide Loads, Holds, WroteSince, EditAll, Off, PieceLoads, JobsOk, PieceOk;
    CursorLemma(p, blockSize);
    var from := p.hash.value.offset / blockSize;
    var ks := Range(from, RunFrom(p.blocks, from));
    var f := Flight(Kicking(from, from), id, ks, BufsAt(p.blocks, ks));
    EditAllLemma(p, ks, IncRef);
    HeldBufs(p, q, f);
    HeldLocal(p, q, f, fl, log, hungAt, blockSize);
  }

  lemma KickStartKeeps(s: State, id: PieceId)
    requires Inv(s) && CanKick(s, id)
    ensures Inv(KickStart(s, id))
  {
    hide CacheInv, PieceOk, Local, LogOk, Ledger, OthersShrink, Locked, EditAll, Editable, Range, RunFrom;
    var p := s.c.pieces[id];
    var from := p.hash.value.offset / s.c.blockSize;
    RunEditable(p, from);
    var ks := Range(from, RunFrom(p.blocks, from));
    FirstCached(p.blocks, from);
    NotGhost(s.c, id);
    LockedKeeps(s.c, id, ks);
    PieceFacts(s.c, id);
    var t := KickStart(s, id);
    OthersSame(s.c, t.c, id);
    KickLocal(p, t.c.pieces[id], id, s.fl, s.log, s.hungAt, s.c.blockSize);
    Begins(s, t.c, t.fl[|s.fl|]);
  }

  lemma FirstCached(bs: seq<Block>, from: nat)
    requires from <= |bs| && RunFrom(bs, from) > from
    ensures from < |bs| && bs[from].buf.Buf?
  {}

  // ------------------------------------------------------------ feeding a block

  /** hasher::update with the bytes of block `at`. */
  function FedMore(p: Piece, at: nat, data: nat): Piece
    requires p.hash.Some?
  {
    p.(hash := Some(p.hash.value.(fed := p.hash.value.fed + [Fed(at, data)])))
  }

  function Advanced(f: Flight): Flight
    requires Hasher(f)
  {
    if f.kind.Kicking? then f.(kind := Kicking(f.kind.from, f.kind.at + 1)) else f.(kind := Hashing(f.kind.from, f.kind.at + 1))
  }

  ghost predicate CanFeed(s: State, i: nat) {
    && i < |s.fl| && Hasher(s.fl[i]) && s.fl[i].id in s.c.pieces
    && var f := s.fl[i]; var p := s.c.pieces[f.id];
       && p.hash.Some?
       && f.kind.at < (if f.kind.Kicking? then f.kind.from + |f.blocks| else |p.blocks|)
  }

  ghost function Feed(s: State, i: nat, data: nat): State
    requires CanFeed(s, i)
  {
    var f := s.fl[i];
    s.(c := SetPiece(s.c, f.id, FedMore(s.c.pieces[f.id], f.kind.at, data)), fl := s.fl[i := Advanced(f)],
       log := s.log + [FedBlock(f.id, Fed(f.kind.at, data))])
  }

  lemma FeedLocal(p: Piece, fl: seq<Flight>, i: nat, data: nat, log: seq<Event>, hungAt: map<nat, nat>, blockSize: int)
    requires i < |fl| && Hasher(fl[i]) && Local(p, fl[i].id, fl, log, hungAt, blockSize) && |p.blocks| > 0
    requires fl[i].kind.at < (if fl[i].kind.Kicking? then fl[i].kind.from + |fl[i].blocks| else |p.blocks|)
    requires FedBlock(fl[i].id, Fed(fl[i].kind.at, data)) in log
    ensures p.hash.Some? && Local(FedMore(p, fl[i].kind.at, data), fl[i].id, fl[i := Advanced(fl[i])], log, hungAt, blockSize)
  {
    hide WroteSince, Loads, Holds;
    var f := fl[i];
    HasherFacts(p, fl, i, log, hungAt, blockSize);
    var q := FedMore(p, f.kind.at, data);
    var gl := fl[i := Advanced(f)];
    forall k | 0 <= k < |q.blocks| ensures Matches(q, k, Loads(gl, f.id, k)) {
      LoadsReplace(fl, i, Advanced(f), f.id, k);
      assert Matches(p, k, Loads(fl, f.id, k));
    }
    forall a | 0 <= a < |gl| && gl[a].id == f.id ensures FlightOk(gl[a], q, log, hungAt, blockSize) {
      if a != i { OneHasher(p, fl, i, a, log, hungAt, blockSize); }
      FedFlight(fl[a], p, f.kind.at, data, log, hungAt, blockSize);
    }
    hide FlightOk;
  }

  lemma FedFlight(f: Flight, p: Piece, at: nat, data: nat, log: seq<Event>, hungAt: map<nat, nat>, blockSize: int)
    requires p.hash.Some? && FlightOk(f, p, log, hungAt, blockSize)
    requires Hasher(f) ==> f.kind.at == at < (if f.kind.Kicking? then f.kind.from + |f.blocks| else |p.blocks|)
    ensures FlightOk(if Hasher(f) then Advanced(f) else f, FedMore(p, at, data), log, hungAt, blockSize)
  {
    hide WroteSince, Holds, Off;
    HoldsSame(f, p, FedMore(p, at, data));
    if Hasher(f) { SameHolds(f, Advanced(f), FedMore(p, at, data)); }
  }

  lemma FeedKeeps(s: State, i: nat, data: nat)
    requires Inv(s) && CanFeed(s, i)
    ensures Inv(Feed(s, i, data))
  {
    hide CacheInv, PieceOk, Local, LogOk, Ledger, OthersShrink;
    var f := s.fl[i];
    PieceFacts(s.c, f.id);
    var p := s.c.pieces[f.id];
    HasBlocks(p, s.c.blockSize);
    HasherFacts(p, s.fl, i, s.log, s.hungAt, s.c.blockSize);
    NotGhost(s.c, f.id);
    var t := Feed(s, i, data);
    SetPieceKeeps(s.c, f.id, t.c.pieces[f.id]);
    OthersSame(s.c, t.c, f.id);
    var u := s.(log := t.log);
    HashedLog(s, t.log[|s.log|]);
    SameLocal(u, f.id);
    FeedLocal(p, s.fl, i, data, t.log, s.hungAt, s.c.blockSize);
    Continues(u, t.c, i, t.fl[i]);
  }

  lemma HashedLog(s: State, e: Event)
    requires Inv(s) && e.FedBlock?
    ensures Inv(s.(log := s.log + [e]))
  {
    hide CacheInv, Local, LogOk, Ledger, Inv;
    HasLog(s);
    LogOkAppend(s.log, [e]);
    LogGrows(s, e);
  }

  lemma HasLog(s: State)
    requires Inv(s)
    ensures LogOk(s.log)
  {
    hide CacheInv, Local, LogOk, Ledger;
  }

  lemma SameLocal(s: State, id: PieceId)
    requires Inv(s) && id in s.c.pieces
    ensures Local(s.c.pieces[id], id, s.fl, s.log, s.hungAt, s.c.blockSize)
  {
    hide CacheInv, Local, LogOk, Ledger;
  }

  lemma HasBlocks(p: Piece, blockSize: int)
    requires PieceOk(p, blockSize)
    ensures |p.blocks| > 0
  {}

  /** The block a hasher is about to feed from the cache is still there, and holds the
      buffer the hasher locked. */
  lemma CachedFeed(s: State, i: nat)
    requires Inv(s) && CanFeed(s, i) && (s.fl[i].kind.Hashing? ==> s.fl[i].kind.at in s.fl[i].blocks)
    ensures var f := s.fl[i]; var p := s.c.pieces[f.id];
      && f.kind.at < |p.blocks| && p.blocks[f.kind.at].buf.Buf? && p.blocks[f.kind.at].refcount > 0
      && p.blocks[f.kind.at].buf in f.bufs
  {
    hide CacheInv, LogOk, Ledger, WroteSince, Loads;
    var f := s.fl[i];
    var p := s.c.pieces[f.id];
    assert FlightOk(f, p, s.log, s.hungAt, s.c.blockSize);
    var a := if f.kind.Kicking? then f.kind.at - f.kind.from else var x :| 0 <= x < |f.blocks| && f.blocks[x] == f.kind.at; x;
    assert f.blocks[a] == f.kind.at && f.bufs[a] == p.blocks[f.kind.at].buf;
    LoadsAtLeast(s.fl, i, f.id, f.kind.at);
    assert Matches(p, f.kind.at, Loads(s.fl, f.id, f.kind.at));
  }

  // --------------------------------------------------------- kick_hasher: finish

  /** The hasher publishes its offset and lets go of the piece. */
  ghost function Unlocked(c: Cache, f: Flight): Cache
    requires Hasher(f) && f.id in c.pieces && c.pieces[f.id].hash.Some? && Editable(c.pieces[f.id], f.blocks, DecRef)
  {
    var d := EditBlocks(c, f.id, f.blocks, DecRef);
    var q := d.pieces[f.id];
    SetPiece(d, f.id, q.(hashing := false, pieceRefcount := q.pieceRefcount - 1,
                         hash := Some(c.pieces[f.id].hash.value.(offset := Off(f.kind.at, c.blockSize, q.size)))))
  }

  ghost predicate CanUnlock(s: State, i: nat) {
    && i < |s.fl| && Hasher(s.fl[i]) && s.fl[i].id in s.c.pieces
    && s.c.pieces[s.fl[i].id].hash.Some? && Editable(s.c.pieces[s.fl[i].id], s.fl[i].blocks, DecRef)
  }

  /** That a hasher finds its piece and its blocks as it left them. */
  lemma HasherEnabled(s: State, i: nat)
    requires Inv(s) && i < |s.fl| && Hasher(s.fl[i])
    ensures CanUnlock(s, i) && s.c.pieces[s.fl[i].id].hashing && s.c.pieces[s.fl[i].id].pieceRefcount >= 1
  {
    hide CacheInv, PieceOk, Local, LogOk, Ledger, Editable;
    var f := s.fl[i];
    PieceFacts(s.c, f.id);
    HasBlocks(s.c.pieces[f.id], s.c.blockSize);
    HasherFacts(s.c.pieces[f.id], s.fl, i, s.log, s.hungAt, s.c.blockSize);
    HeldEditable(s.c.pieces[f.id], s.fl, i, s.log, s.hungAt, s.c.blockSize);
  }

  lemma UnlockedKeeps(s: State, i: nat)
    requires Inv(s) && CanUnlock(s, i)
    ensures var f := s.fl[i]; var d := Unlocked(s.c, f); var p, q := s.c.pieces[f.id], d.pieces[f.id];
      && CacheInv(d) && d.pieces == s.c.pieces[f.id := q] && d.blockSize == s.c.blockSize && d.clock == s.c.clock
      && !IsGhost(q.cacheState)
      && q == p.(blocks := q.blocks, numBlocks := q.numBlocks, numDirty := q.numDirty, pinned := q.pinned, refcount := q.refcount,
                 hashing := false, pieceRefcount := p.pieceRefcount - 1, hash := q.hash)
      && q.hash == Some(p.hash.value.(offset := Off(f.kind.at, s.c.blockSize, p.size)))
      && q.blocks == EditAll(p, f.blocks, DecRef).blocks && |q.blocks| == |p.blocks|
      && PieceOk(p, s.c.blockSize) && s.c.blockSize > 0
  {
    hide CacheInv, PieceOk, Local, LogOk, Ledger, Editable, EditAll, Put, Off;
    var f := s.fl[i];
    HasherEnabled(s, i);
    NotGhost(s.c, f.id);
    EditKeeps(s.c, f.id, f.blocks, DecRef);
    EditEffect(s.c, f.id, f.blocks, DecRef);
    InBounds(s.c.pieces[f.id], f.blocks, DecRef);
    var d := EditBlocks(s.c, f.id, f.blocks, DecRef);
    PieceFacts(s.c, f.id);
    PieceFacts(d, f.id);
    CacheFacts(s.c);
    OffRange(f.kind.at, s.c.blockSize, d.pieces[f.id].size);
    SetPieceKeeps(d, f.id, Unlocked(s.c, f).pieces[f.id]);
  }

  /** The piece after a hasher let go, with or without its hash. */
  lemma UnlockedLocal(s: State, i: nat, q: Piece)
    requires Inv(s) && CanUnlock(s, i)
    requires var r := Unlocked(s.c, s.fl[i]).pieces[s.fl[i].id];
      q == r.(hash := q.hash, hashingDone := q.hashingDone) && (q.hash == r.hash || q.hash.None?)
    ensures Local(q, s.fl[i].id, Drop(s.fl, i), s.log, s.hungAt, s.c.blockSize)
  {
    hide CacheInv, PieceOk, LogOk, Ledger, Editable, EditAll, Unlocked, FlightOk, PieceLoads, JobsOk, Off;
    var f := s.fl[i];
    HasherEnabled(s, i);
    UnlockedKeeps(s, i);
    var p := s.c.pieces[f.id];
    HasBlocks(p, s.c.blockSize);
    assert FlightOk(f, p, s.log, s.hungAt, s.c.blockSize);
    FedAt(f, p, s.log, s.hungAt, s.c.blockSize);
    DroppedLocal(p, q, s.fl, i, s.log, s.hungAt, s.c.blockSize);
  }

  lemma FedAt(f: Flight, p: Piece, log: seq<Event>, hungAt: map<nat, nat>, blockSize: int)
    requires Hasher(f) && FlightOk(f, p, log, hungAt, blockSize)
    ensures p.hash.Some? && |p.hash.value.fed| == f.kind.at <= |p.blocks|
  {}

  ghost predicate CanKickFinish(s: State, i: nat) {
    CanUnlock(s, i) && s.fl[i].kind.Kicking? && s.fl[i].kind.at == s.fl[i].kind.from + |s.fl[i].blocks|
  }

  ghost function KickFinish(s: State, i: nat): State
    requires CanKickFinish(s, i)
  {
    s.(c := Unlocked(s.c, s.fl[i]), fl := Drop(s.fl, i))
  }

  lemma KickFinishKeeps(s: State, i: nat)
    requires Inv(s) && CanKickFinish(s, i)
    ensures Inv(KickFinish(s, i))
  {
    hide CacheInv, PieceOk, Local, LogOk, Ledger, OthersShrink, Unlocked, EditAll, Editable;
    UnlockedKeeps(s, i);
    var d := KickFinish(s, i).c;
    OthersSame(s.c, d, s.fl[i].id);
    UnlockedLocal(s, i, d.pieces[s.fl[i].id]);
    assert s.log + [] == s.log;
    Ends(s, d, i, []);
  }

  // ------------------------------------------------------------- do_hash: start

  /** The cached blocks from `from` on, in index order. */
  function CachedFrom(bs: seq<Block>, from: nat): (ks: seq<nat>)
    requires from <= |bs|
    ensures forall i :: 0 <= i < |ks| ==> from <= ks[i] < |bs| && bs[ks[i]].buf.Buf?
    ensures forall i, j :: 0 <= i < j < |ks| ==> ks[i] < ks[j]
    ensures forall k :: from <= k < |bs| && bs[k].buf.Buf? ==> k in ks
    decreases |bs| - from
  {
    if from == |bs| then []
    else if bs[from].buf.Buf? then [from] + CachedFrom(bs, from + 1)
    else CachedFrom(bs, from + 1)
  }

  lemma CachedEditable(p: Piece, from: nat)
    requires from <= |p.blocks|
    ensures Editable(p, CachedFrom(p.blocks, from), IncRef)
  {}

  ghost predicate CanAllocate(s: State, id: PieceId, size: int, state: int, now: int) {
    && CacheInv(s.c) && Allocatable(state) && size > 0 && now >= s.c.clock
    && |s.c.lru| == NUM_LRUS && s.c.blockSize > 0
    && (id in s.c.pieces ==> 0 <= s.c.pieces[id].cacheState < NUM_LRUS)
  }

  lemma AllocatePieceKeeps(s: State, id: PieceId, size: int, requester: nat, state: int, now: int)
    requires Inv(s) && CanAllocate(s, id, size, state, now)
    ensures Inv(s.(c := AllocatePiece(s.c, id, size, requester, state, now)))
  {
    hide CacheInv, Local, LogOk, Ledger, OthersShrink, AllocatePiece, NewPiece;
    AllocateKeeps(s.c, id, size, requester, state, now);
    AllocateEffect(s.c, id, size, requester, state, now);
    AllocatedLocal(s, id, size, requester, state, now);
    var d := AllocatePiece(s.c, id, size, requester, state, now);
    OthersSame(s.c, d, id);
    Quiet(s, d, id);
  }

  /** A piece that has no hash gets an empty one. */
  function WithHash(p: Piece): Piece {
    if p.hash.Some? then p else p.(hash := Some(PartialHash(0, [])), hashingDone := false)
  }

  /** The hash is taken off the piece. */
  function WithoutHash(p: Piece, finished: bool): Piece {
    p.(hash := None, hashingDone := p.hashingDone || (finished && p.cacheState != VOLATILE_LRU))
  }

  lemma IdleHashLocal(p: Piece, q: Piece, id: PieceId, fl: seq<Flight>, log: seq<Event>, hungAt: map<nat, nat>, blockSize: int)
    requires Local(p, id, fl, log, hungAt, blockSize) && |p.blocks| > 0 && blockSize > 0 && p.size > 0
    requires !p.hashing && (q == WithHash(p) || q == WithoutHash(p, true) || q == WithoutHash(p, false))
    ensures Local(q, id, fl, log, hungAt, blockSize)
  {
    hide Holds, WroteSince, Loads, AllLogged;
    NothingLogged(id, log);
    forall i | 0 <= i < |fl| && fl[i].id == id ensures FlightOk(fl[i], q, log, hungAt, blockSize) {
      assert FlightOk(fl[i], p, log, hungAt, blockSize);
      HoldsBufs(fl[i], p, q);
      if Hasher(fl[i]) { HasherFacts(p, fl, i, log, hungAt, blockSize); }
    }
    forall k | 0 <= k < |q.blocks| ensures Matches(q, k, Loads(fl, id, k)) { assert Matches(p, k, Loads(fl, id, k)); }
  }

  lemma NothingLogged(id: PieceId, log: seq<Event>)
    ensures AllLogged([], id, log)
  {}

  lemma IdleHashKeeps(s: State, id: PieceId, q: Piece)
    requires Inv(s) && id in s.c.pieces && !s.c.pieces[id].hashing
    requires q == WithHash(s.c.pieces[id]) || q == WithoutHash(s.c.pieces[id], true) || q == WithoutHash(s.c.pieces[id], false)
    ensures Inv(s.(c := SetPiece(s.c, id, q)))
  {
    hide CacheInv, PieceOk, Local, LogOk, Ledger, OthersShrink;
    PieceFacts(s.c, id);
    CacheFacts(s.c);
    HasBlocks(s.c.pieces[id], s.c.blockSize);
    SetPieceKeeps(s.c, id, q);
    OthersSame(s.c, SetPiece(s.c, id, q), id);
    IdleHashLocal(s.c.pieces[id], q, id, s.fl, s.log, s.hungAt, s.c.blockSize);
    Quiet(s, SetPiece(s.c, id, q), id);
  }

  ghost predicate CanHash(s: State, id: PieceId) {
    && id in s.c.pieces && s.c.blockSize > 0 && !IsGhost(s.c.pieces[id].cacheState)
    && var p := WithHash(s.c.pieces[id]);
       && !p.hashing && 0 <= p.hash.value.offset < p.size
       && p.hash.value.offset / s.c.blockSize <= |p.blocks|
  }

  /** do_hash, up to where it drops the mutex: every cached block from the cursor on
      is locked. */
  ghost function HashStart(s: State, id: PieceId): State
    requires CanHash(s, id)
  {
    var c := SetPiece(s.c, id, WithHash(s.c.pieces[id]));
    var p := c.pieces[id];
    var from := p.hash.value.offset / c.blockSize;
    CachedEditable(p, from);
    var ks := CachedFrom(p.blocks, from);
    s.(c := Locked(c, id, ks), fl := s.fl + [Flight(Hashing(from, from), id, ks, BufsAt(p.blocks, ks))])
  }

  lemma HashLocal(p: Piece, q: Piece, id: PieceId, fl: seq<Flight>, log: seq<Event>, hungAt: map<nat, nat>, blockSize: int)
    requires Local(p, id, fl, log, hungAt, blockSize) && PieceOk(p, blockSize) && blockSize > 0
    requires p.hash.Some? && !p.hashing && p.hash.value.offset < p.size
    requires var from := p.hash.value.offset / blockSize;
      && 0 <= from <= |p.blocks| && Editable(p, CachedFrom(p.blocks, from), IncRef)
      && q == EditAll(p, CachedFrom(p.blocks, from), IncRef).(hashing := true, pieceRefcount := p.pieceRefcount + 1)
    ensures var from := p.hash.value.offset / blockSize; var ks := CachedFrom(p.blocks, from);
      Local(q, id, fl + [Flight(Hashing(from, from), id, ks, BufsAt(p.blocks, ks))], log, hungAt, blockSize)
  {
    hide Loads, Holds, WroteSince, EditAll, Off, PieceLoads, JobsOk, PieceOk, CachedFrom;
    CursorLemma(p, blockSize);
    var from := p.hash.value.offset / blockSize;
    var ks := CachedFrom(p.blocks, from);
    var f := Flight(Hashing(from, from), id, ks, BufsAt(p.blocks, ks));
    EditAllLemma(p, ks, IncRef);
    HeldBufs(p, q, f);
    HeldLocal(p, q, f, fl, log, hungAt, blockSize);
  }

  lemma LockKeeps(s: State, id: PieceId)
    requires Inv(s) && CanHash(s, id) && s.c.pieces[id].hash.Some?
    ensures Inv(HashStart(s, id))
  {
    hide CacheInv, PieceOk, Local, LogOk, Ledger, OthersShrink, Locked, EditAll, Editable, CachedFrom;
    var p := s.c.pieces[id];
    assert SetPiece(s.c, id, p) == s.c;
    var from := p.hash.value.offset / s.c.blockSize;
    CachedEditable(p, from);
    LockedKeeps(s.c, id, CachedFrom(p.blocks, from));
    PieceFacts(s.c, id);
    var t := HashStart(s, id);
    OthersSame(s.c, t.c, id);
    HashLocal(p, t.c.pieces[id], id, s.fl, s.log, s.hungAt, s.c.blockSize);
    Begins(s, t.c, t.fl[|s.fl|]);
  }

  lemma HashStartKeeps(s: State, id: PieceId)
    requires Inv(s) && CanHash(s, id)
    ensures Inv(HashStart(s, id))
  {
    hide CacheInv, Local, LogOk, Ledger, Locked, CachedFrom, Inv;
    IdleHashKeeps(s, id, WithHash(s.c.pieces[id]));
    var m := s.(c := SetPiece(s.c, id, WithHash(s.c.pieces[id])));
    assert SetPiece(m.c, id, WithHash(m.c.pieces[id])) == m.c;
    LockKeeps(m, id);
    assert HashStart(m, id) == HashStart(s, id);
  }

  // ----------------------------------------------------- do_hash: reading a block

  ghost predicate CanInsert(c: Cache, id: PieceId, k: nat, buf: Buf) {
    && CacheInv(c) && id in c.pieces && k < |c.pieces[id].blocks|
    && !IsGhost(c.pieces[id].cacheState) && buf.Buf? && Outside(c, buf.addr)
  }

  /** insert_blocks without taking references, for one block. */
  lemma InsertKeepsInv(s: State, id: PieceId, k: nat, buf: Buf)
    requires Inv(s) && CanInsert(s.c, id, k, buf)
    ensures Inv(s.(c := InsertOne(s.c, id, k, buf, false)))
  {
    hide CacheInv, PieceOk, Local, LogOk, Ledger, OthersShrink, InsertOne, Outside;
    InsertOneLemma(s.c, id, k, buf, false);
    var d := InsertOne(s.c, id, k, buf, false);
    PieceFacts(s.c, id);
    OthersSame(s.c, d, id);
    InsertLocal(s.c.pieces[id], d.pieces[id], id, k, buf, s.fl, s.log, s.hungAt, s.c.blockSize);
    Quiet(s, d, id);
  }

  lemma InsertLocal(p: Piece, q: Piece, id: PieceId, k: nat, buf: Buf, fl: seq<Flight>, log: seq<Event>, hungAt: map<nat, nat>,
                    blockSize: int)
    requires Local(p, id, fl, log, hungAt, blockSize) && PieceOk(p, blockSize) && k < |p.blocks|
    requires q == p.(blocks := q.blocks, numBlocks := q.numBlocks, pinned := q.pinned, refcount := q.refcount)
    requires q.blocks == p.blocks[k := Inserted(p.blocks[k], buf, false)]
    ensures Local(q, id, fl, log, hungAt, blockSize)
  {
    hide WroteSince, Loads, Holds;
    assert BlockOk(p.blocks[k]);
    forall x | 0 <= x < |q.blocks| ensures Matches(q, x, Loads(fl, id, x)) { assert Matches(p, x, Loads(fl, id, x)); }
    forall i | 0 <= i < |fl| && fl[i].id == id ensures FlightOk(fl[i], q, log, hungAt, blockSize) {
      assert FlightOk(fl[i], p, log, hungAt, blockSize);
      HoldsMore(fl[i], p, q);
    }
  }

  lemma HoldsMore(f: Flight, p: Piece, q: Piece)
    requires Holds(f, p) && |q.blocks| == |p.blocks|
    requires forall k :: 0 <= k < |p.blocks| && p.blocks[k].buf.Buf? ==> q.blocks[k].buf == p.blocks[k].buf
    ensures Holds(f, q)
  {}

  /** A block that was not cached when the hasher started is read from disk, hashed
      and put into the cache. */
  ghost predicate CanReadBack(s: State, i: nat, buf: Buf, requester: nat, volatileRead: bool, now: int) {
    && CanFeed(s, i) && s.fl[i].kind.Hashing? && s.fl[i].kind.at !in s.fl[i].blocks
    && now >= s.c.clock && |s.c.lru| == NUM_LRUS && 0 <= s.c.pieces[s.fl[i].id].cacheState < NUM_LRUS
    && CanInsert(CacheHit(s.c, s.fl[i].id, requester, volatileRead, now), s.fl[i].id, s.fl[i].kind.at, buf)
  }

  ghost function ReadBack(s: State, i: nat, buf: Buf, requester: nat, volatileRead: bool, now: int): State
    requires CanReadBack(s, i, buf, requester, volatileRead, now)
  {
    var f := s.fl[i];
    var c := InsertOne(CacheHit(s.c, f.id, requester, volatileRead, now), f.id, f.kind.at, buf, false);
    InsertOneLemma(CacheHit(s.c, f.id, requester, volatileRead, now), f.id, f.kind.at, buf, false);
    CacheHitEffect(s.c, f.id, requester, volatileRead, now);
    Feed(s.(c := c), i, buf.data)
  }

  lemma ReadBackKeeps(s: State, i: nat, buf: Buf, requester: nat, volatileRead: bool, now: int)
    requires Inv(s) && CanReadBack(s, i, buf, requester, volatileRead, now)
    ensures Inv(ReadBack(s, i, buf, requester, volatileRead, now))
  {
    hide Inv, InsertOne, CacheHit, CacheInv, Outside, Feed, Advanced, FedMore;
    var f := s.fl[i];
    InInv(s);
    HitKeeps(s, f.id, requester, volatileRead, now);
    CacheHitEffect(s.c, f.id, requester, volatileRead, now);
    var s1 := s.(c := CacheHit(s.c, f.id, requester, volatileRead, now));
    InsertKeepsInv(s1, f.id, f.kind.at, buf);
    var s2 := s1.(c := InsertOne(s1.c, f.id, f.kind.at, buf, false));
    InsertOneSame(s1.c, f.id, f.kind.at, buf);
    FeedKeeps(s2, i, buf.data);
    assert ReadBack(s, i, buf, requester, volatileRead, now) == Feed(s2, i, buf.data);
  }

  lemma InsertOneSame(c: Cache, id: PieceId, k: nat, buf: Buf)
    requires CanInsert(c, id, k, buf)
    ensures var d := InsertOne(c, id, k, buf, false);
      && id in d.pieces && d.pieces[id].hash == c.pieces[id].hash && |d.pieces[id].blocks| == |c.pieces[id].blocks|
  {
    hide CacheInv;
    InsertOneLemma(c, id, k, buf, false);
  }

  lemma InInv(s: State)
    requires Inv(s)
    ensures CacheInv(s.c)
  {
    hide CacheInv, Local, LogOk, Ledger;
  }

  // ------------------------------------------------------------ do_hash: finish

  /** The digest of a piece is final: the hash is gone and the event is logged. */
  ghost function Published(s: State, id: PieceId): State
    requires id in s.c.pieces && s.c.pieces[id].hash.Some?
  {
    var p := s.c.pieces[id];
    s.(c := SetPiece(s.c, id, WithoutHash(p, true)), log := s.log + [Digest(id, |p.blocks|, p.hash.value.fed)])
  }

  /** async_hash, and do_hash after it kicked the hasher: the hash is complete. */
  ghost predicate CanPublish(s: State, id: PieceId) {
    && id in s.c.pieces && s.c.pieces[id].hash.Some? && !s.c.pieces[id].hashing
    && s.c.pieces[id].hash.value.offset == s.c.pieces[id].size
  }

  lemma DigestLog(log: seq<Event>, e: Event)
    requires LogOk(log) && e.Digest? && DigestOk(e, log)
    ensures LogOk(log + [e])
  {
    var newLog := log + [e];
    forall d | 0 <= d < |newLog| && newLog[d].Digest? ensures DigestOk(newLog[d], newLog[..d]) {
      assert newLog[..d] == if d < |log| then log[..d] else log;
    }
    forall d | 0 <= d < |newLog| && newLog[d].Done? && newLog[d].ok
      ensures exists h, m :: 0 <= h < m < d && newLog[h] == HungJob(newLog[d].id, newLog[d].job)
                         && newLog[m] == Wrote(newLog[d].id, newLog[d].job.block, newLog[d].data)
    {
      assert newLog[d] == log[d];
      var h, m :| 0 <= h < m < d && log[h] == HungJob(log[d].id, log[d].job)
                         && log[m] == Wrote(log[d].id, log[d].job.block, log[d].data);
      assert newLog[h] == log[h] && newLog[m] == log[m];
    }
  }

  /** A complete hash was fed every block, in order. */
  lemma CompleteHash(p: Piece, blockSize: int)
    requires PieceOk(p, blockSize) && HashOk(p, blockSize) && blockSize > 0
    requires p.hash.Some? && !p.hashing && p.hash.value.offset == p.size
    ensures FedInOrder(p.hash.value.fed) && |p.hash.value.fed| == |p.blocks|
  {
    hide Tally;
    FullFed(|p.hash.value.fed|, |p.blocks|, blockSize, p.size);
  }

  lemma LogGrows(s: State, e: Event)
    requires Inv(s) && LogOk(s.log + [e])
    ensures Inv(s.(log := s.log + [e]))
  {
    hide CacheInv, Local, LogOk, Ledger;
    var t := s.(log := s.log + [e]);
    forall id | id in t.c.pieces ensures Local(t.c.pieces[id], id, t.fl, t.log, t.hungAt, t.c.blockSize) {
      LocalFrame(t.c.pieces[id], id, t.fl, t.fl, s.log, t.log, t.hungAt, t.hungAt, t.c.blockSize);
    }
    assert Ledger(t) by { LedgerLog(s, s.log + [e]); }
  }

  lemma LedgerLog(s: State, log: seq<Event>)
    requires Ledger(s)
    ensures Ledger(s.(log := log))
  {
    hide Issued, Queued;
    forall j: ReadJob
      ensures s.submitted[j] == s.completed[j] + s.failed[j] + Issued(s.fl, j) + Queued(s.c, j) {}
  }

  lemma PublishKeeps(s: State, id: PieceId)
    requires Inv(s) && CanPublish(s, id)
    ensures Inv(Published(s, id))
  {
    hide CacheInv, Local, LogOk, Ledger, Inv, PieceOk, HashOk;
    InvFacts(s, id);
    var p := s.c.pieces[id];
    CompleteHash(p, s.c.blockSize);
    LoggedFacts(s, id);
    IdleHashKeeps(s, id, WithoutHash(p, true));
    var s1 := s.(c := SetPiece(s.c, id, WithoutHash(p, true)));
    DigestLog(s.log, Digest(id, |p.blocks|, p.hash.value.fed));
    LogGrows(s1, Digest(id, |p.blocks|, p.hash.value.fed));
  }

  lemma LoggedFacts(s: State, id: PieceId)
    requires Inv(s) && id in s.c.pieces
    ensures FedLogged(s.c.pieces[id].hash, id, s.log)
  {
    hide CacheInv, LogOk, Ledger, FedLogged, HashOk, PieceLoads, JobsOk, FlightOk;
  }

  lemma InvFacts(s: State, id: PieceId)
    requires Inv(s) && id in s.c.pieces
    ensures CacheInv(s.c) && LogOk(s.log) && PieceOk(s.c.pieces[id], s.c.blockSize) && HashOk(s.c.pieces[id], s.c.blockSize)
    ensures s.c.blockSize > 0 && |s.c.lru| == NUM_LRUS && 0 <= s.c.pieces[id].cacheState < NUM_LRUS
  {
    hide CacheInv, LogOk, Ledger, PieceOk, HashOk, PieceLoads, JobsOk, FlightOk;
    PieceFacts(s.c, id);
    CacheFacts(s.c);
  }

  /** The hasher is done with the last block: it lets go, and what is left is a
      complete hash to publish. */
  ghost function HashLanded(s: State, i: nat): State
    requires CanUnlock(s, i)
  {
    s.(c := Unlocked(s.c, s.fl[i]), fl := Drop(s.fl, i))
  }

  lemma HashLandedKeeps(s: State, i: nat)
    requires Inv(s) && CanUnlock(s, i)
    ensures Inv(HashLanded(s, i))
  {
    hide CacheInv, PieceOk, Local, LogOk, Ledger, OthersShrink, Unlocked, EditAll, Editable;
    UnlockedKeeps(s, i);
    var d := HashLanded(s, i).c;
    OthersSame(s.c, d, s.fl[i].id);
    UnlockedLocal(s, i, d.pieces[s.fl[i].id]);
    assert s.log + [] == s.log;
    Ends(s, d, i, []);
  }

  /** update_cache_state and maybe_free_piece at the end of a locked section. */
  ghost function Settle(c: Cache, id: PieceId, now: int): Cache
    requires CacheInv(c) && id in c.pieces && now >= c.clock
  {
    PieceFacts(c, id);
    UpdateStateKeeps(c, id, now);
    MaybeFree(UpdateState(c, id, now), id)
  }

  lemma SettleKeeps(s: State, id: PieceId, now: int)
    requires Inv(s) && id in s.c.pieces && now >= s.c.clock && CacheInv(s.c)
    ensures Inv(s.(c := Settle(s.c, id, now)))
  {
    hide Inv, CacheInv, UpdateState, MaybeFree;
    UpdateKeeps(s, id, now);
    UpdateStateSame(s.c, id, now);
    var t := s.(c := UpdateState(s.c, id, now));
    FreeKeeps(t, id);
    assert t.c == UpdateState(s.c, id, now);
  }

  lemma HashLandedFacts(s: State, i: nat)
    requires Inv(s) && CanUnlock(s, i)
    ensures var d := HashLanded(s, i).c; var id := s.fl[i].id; var p := s.c.pieces[id];
      && CacheInv(d) && id in d.pieces && d.clock == s.c.clock && !d.pieces[id].hashing
      && d.pieces[id].hash == Some(p.hash.value.(offset := Off(s.fl[i].kind.at, s.c.blockSize, p.size)))
      && |d.pieces[id].blocks| == |p.blocks| && d.pieces[id].size == p.size
      && (s.fl[i].kind.at == |p.blocks| ==> d.pieces[id].hash.value.offset == d.pieces[id].size)
  {
    hide CacheInv, PieceOk, Local, LogOk, Ledger, Unlocked, EditAll, Editable;
    UnlockedKeeps(s, i);
    OffFull(s.c.pieces[s.fl[i].id], s.c.blockSize);
  }

  lemma OffFull(p: Piece, blockSize: int)
    requires PieceOk(p, blockSize)
    ensures Off(|p.blocks|, blockSize, p.size) == p.size
  {
    hide Tally;
  }

  ghost predicate CanPublishAndSettle(s: State, id: PieceId, now: int) {
    CanPublish(s, id) && CacheInv(s.c) && now >= s.c.clock
  }

  ghost function PublishAndSettle(s: State, id: PieceId, now: int): State
    requires CanPublishAndSettle(s, id, now)
  {
    WithoutHashKeeps(s.c, id);
    var t := Published(s, id);
    t.(c := Settle(t.c, id, now))
  }

  lemma WithoutHashKeeps(c: Cache, id: PieceId)
    requires CacheInv(c) && id in c.pieces
    ensures CacheInv(SetPiece(c, id, WithoutHash(c.pieces[id], true))) && CacheInv(SetPiece(c, id, WithoutHash(c.pieces[id], false)))
  {
    hide CacheInv, PieceOk;
    PieceFacts(c, id);
    SetPieceKeeps(c, id, WithoutHash(c.pieces[id], true));
    SetPieceKeeps(c, id, WithoutHash(c.pieces[id], false));
  }

  lemma PublishAndSettleKeeps(s: State, id: PieceId, now: int)
    requires Inv(s) && CanPublishAndSettle(s, id, now)
    ensures Inv(PublishAndSettle(s, id, now))
  {
    hide Inv, CacheInv, Settle;
    WithoutHashKeeps(s.c, id);
    PublishKeeps(s, id);
    SettleKeeps(Published(s, id), id, now);
  }

  ghost predicate CanFinishHash(s: State, i: nat, now: int) {
    && CanUnlock(s, i) && s.fl[i].kind.Hashing?
    && CanPublishAndSettle(HashLanded(s, i), s.fl[i].id, now)
    && s.fl[i].kind.at == |s.c.pieces[s.fl[i].id].blocks|
  }

  ghost function FinishHash(s: State, i: nat, now: int): State
    requires CanFinishHash(s, i, now)
  {
    PublishAndSettle(HashLanded(s, i), s.fl[i].id, now)
  }

  /** When do_hash has fed every block, the rest of it goes through. */
  lemma FinishHashEnabled(s: State, i: nat, now: int)
    requires Inv(s) && i < |s.fl| && s.fl[i].kind.Hashing? && now >= s.c.clock
    requires s.fl[i].id in s.c.pieces && s.fl[i].kind.at == |s.c.pieces[s.fl[i].id].blocks|
    ensures CanFinishHash(s, i, now)
  {
    hide Inv, CacheInv, HashLanded, CanUnlock;
    HasherEnabled(s, i);
    HashLandedFacts(s, i);
  }

  lemma FinishHashKeeps(s: State, i: nat, now: int)
    requires Inv(s) && CanFinishHash(s, i, now)
    ensures Inv(FinishHash(s, i, now))
  {
    hide Inv, Editable, HashLanded, CanPublishAndSettle, PublishAndSettle;
    HashLandedKeeps(s, i);
    PublishAndSettleKeeps(HashLanded(s, i), s.fl[i].id, now);
  }

  /** A read error stops do_hash before the end: the hash stays, as far as it got. */
  ghost predicate CanFailHash(s: State, i: nat) {
    && CanUnlock(s, i) && s.fl[i].kind.Hashing? && CacheInv(HashLanded(s, i).c)
    && s.fl[i].kind.at < |s.c.pieces[s.fl[i].id].blocks| && s.fl[i].kind.at !in s.fl[i].blocks
  }

  /** `keep`: the read failed, and what was hashed is kept. Otherwise there was no
      buffer to read into, and the hash is thrown away. */
  ghost function FailHash(s: State, i: nat, keep: bool): State
    requires CanFailHash(s, i)
  {
    var t := HashLanded(s, i);
    var id := s.fl[i].id;
    WithoutHashKeeps(t.c, id);
    var c := if keep then t.c else SetPiece(t.c, id, WithoutHash(t.c.pieces[id], false));
    t.(c := MaybeFree(c, id))
  }

  lemma FailHashKeeps(s: State, i: nat, keep: bool)
    requires Inv(s) && CanFailHash(s, i)
    ensures Inv(FailHash(s, i, keep))
  {
    hide Inv, Editable, HashLanded, MaybeFree, CacheInv;
    HashLandedKeeps(s, i);
    HashLandedFacts(s, i);
    var t := HashLanded(s, i);
    var id := s.fl[i].id;
    if keep {
      FreeKeeps(t, id);
    } else {
      var c := SetPiece(t.c, id, WithoutHash(t.c.pieces[id], false));
      IdleHashKeeps(t, id, WithoutHash(t.c.pieces[id], false));
      FreeKeeps(t.(c := c), id);
    }
  }
}
