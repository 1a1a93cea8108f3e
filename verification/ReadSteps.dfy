/** The steps that serve read jobs: prep_read_job_impl, do_read and
    maybe_issue_queued_read_jobs. */
module ReadSteps {
  import opened CacheModel
  import opened CacheSpec
  import opened BlockEdits
  import opened CacheOps
  import opened Eviction
  import opened DiskProtocol
  import opened ProtocolFrames
  import opened FlushSteps
  import opened CacheSteps
  import opened HashSteps

  // -------------------------------------------------------------------- try_read

  datatype Outcome = Miss | Referenced | Copied

  ghost predicate CanTry(c: Cache, j: ReadJob, now: int) {
    && CacheInv(c) && now >= c.clock && c.blockSize > 0 && |c.lru| == NUM_LRUS
    && (j.piece in c.pieces ==>
          && 0 <= c.pieces[j.piece].cacheState < NUM_LRUS
          && JobFits(j, j.piece, |c.pieces[j.piece].blocks|, c.blockSize))
  }

  /** copy_from_piece: an aligned read takes a reference to the block; any other is
      copied, and the references taken for it are given back. */
  ghost function CopyFromPiece(c: Cache, j: ReadJob): (Cache, Outcome)
    requires CacheInv(c) && c.blockSize > 0 && j.piece in c.pieces
    requires JobFits(j, j.piece, |c.pieces[j.piece].blocks|, c.blockSize)
  {
    var p := c.pieces[j.piece];
    var b := FirstBlock(j, c.blockSize);
    FirstInPiece(j, |p.blocks|, c.blockSize);
    if p.blocks[b].buf.Null? then (c, Miss)
    else if BlocksToRead(j, c.blockSize) == 1 && !j.forceCopy then
      EditableOne(p, b, IncRef);
      (EditBlocks(c, j.piece, [b], IncRef), Referenced)
    else
      var missing := BlocksToRead(j, c.blockSize) == 2 && p.blocks[b + 1].buf.Null?;
      (MaybeFree(c, j.piece), if missing then Miss else Copied)
  }

  lemma FirstInPiece(j: ReadJob, blocks: nat, blockSize: int)
    requires blockSize > 0 && JobFits(j, j.piece, blocks, blockSize)
    ensures 0 <= FirstBlock(j, blockSize) && FirstBlock(j, blockSize) + BlocksToRead(j, blockSize) <= blocks
  {}

  ghost function TryRead(c: Cache, j: ReadJob, now: int): (Cache, Outcome)
    requires CanTry(c, j, now)
  {
    if j.piece !in c.pieces then (c, Miss)
    else
      CacheHitKeeps(c, j.piece, j.requester, j.volatileRead, now);
      CacheHitEffect(c, j.piece, j.requester, j.volatileRead, now);
      HitBlockSize(c, j.piece, j.requester, j.volatileRead, now);
      CopyFromPiece(CacheHit(c, j.piece, j.requester, j.volatileRead, now), j)
  }

  /** The bytes asked for start at a block or end in the one they start in. */
  predicate InOneBlock(j: ReadJob, blockSize: int)
    requires blockSize > 0
  {
    j.offset % blockSize == 0 || j.offset % blockSize + j.size <= blockSize
  }

  /** Every block left has the references it had, and no block lost had one. */
  ghost predicate SameRefs(c: Cache, d: Cache) {
    && d.pieces.Keys <= c.pieces.Keys
    && (forall x :: x in d.pieces ==>
          && |d.pieces[x].blocks| == |c.pieces[x].blocks|
          && forall k :: 0 <= k < |d.pieces[x].blocks| ==> d.pieces[x].blocks[k].refcount == c.pieces[x].blocks[k].refcount)
    && (forall x, k :: x in c.pieces && x !in d.pieces && 0 <= k < |c.pieces[x].blocks| ==> c.pieces[x].blocks[k].refcount == 0)
  }

  /** Block `b` of piece `id` has one reference more and no other block of any piece changed. */
  ghost predicate OneRefMore(c: Cache, d: Cache, id: PieceId, b: int) {
    && id in c.pieces && d.pieces.Keys == c.pieces.Keys
    && 0 <= b < |c.pieces[id].blocks|
    && (forall x :: x in c.pieces ==>
          && |d.pieces[x].blocks| == |c.pieces[x].blocks|
          && forall k :: 0 <= k < |c.pieces[x].blocks| ==>
               var was := c.pieces[x].blocks[k];
               d.pieces[x].blocks[k] == if x == id && k == b then was.(refcount := was.refcount + 1) else was)
  }

  /** How a job is served from the cache: a block missing, nothing is taken. A job within one
      block is handed that block and leaves a reference on it, unless it wants a copy. A copy, like a miss,
      leaves no reference behind. */
  ghost predicate Serves(c: Cache, d: Cache, j: ReadJob, r: Outcome, blockSize: int)
    requires blockSize > 0
  {
    var b := j.offset / blockSize;
    && j.piece in c.pieces && 0 <= b < |c.pieces[j.piece].blocks|
    && (!InOneBlock(j, blockSize) ==> b + 1 < |c.pieces[j.piece].blocks|)
    && var bs := c.pieces[j.piece].blocks;
    && (r.Miss? <==> bs[b].buf.Null? || (!InOneBlock(j, blockSize) && bs[b + 1].buf.Null?))
    && (r.Referenced? <==> bs[b].buf.Buf? && InOneBlock(j, blockSize) && !j.forceCopy)
    && (r.Referenced? ==> OneRefMore(c, d, j.piece, b))
    && (!r.Referenced? ==> SameRefs(c, d))
  }

  lemma RefsZero(p: Piece, blockSize: int, k: nat)
    requires PieceOk(p, blockSize) && OkToEvict(p, false) && k < |p.blocks|
    ensures p.blocks[k].refcount == 0
  {
    TallyZero(p.blocks, k);
  }

  lemma FreesRefs(c: Cache, d: Cache, id: PieceId)
    requires CacheInv(c) && Frees(c, d, id) && id in c.pieces
    ensures SameRefs(c, d)
  {
    hide CacheInv, PieceOk, OkToEvict;
    assert forall x :: x in c.pieces ==> PieceOk(c.pieces[x], c.blockSize) by { PiecesAreOk(c); }
    forall x, k | x in c.pieces && 0 <= k < |c.pieces[x].blocks| && OkToEvict(c.pieces[x], false)
      ensures c.pieces[x].blocks[k].refcount == 0
    {
      RefsZero(c.pieces[x], c.blockSize, k);
    }
  }

  lemma PiecesAreOk(c: Cache)
    requires CacheInv(c)
    ensures forall x :: x in c.pieces ==> PieceOk(c.pieces[x], c.blockSize)
  {
    hide PieceOk;
  }

  lemma OneRef(c: Cache, id: PieceId, b: nat)
    requires CacheInv(c) && id in c.pieces && b < |c.pieces[id].blocks| && c.pieces[id].blocks[b].buf.Buf?
    ensures Editable(c.pieces[id], [b], IncRef) && OneRefMore(c, EditBlocks(c, id, [b], IncRef), id, b)
  {
    hide CacheInv, EditBlocks, Editable, PieceOk, BlockOk;
    EditOne(c, id, b, IncRef);
  }

  lemma BlocksNeeded(j: ReadJob, blockSize: int)
    requires blockSize > 0
    ensures BlocksToRead(j, blockSize) == if InOneBlock(j, blockSize) then 1 else 2
  {}

  lemma CopyServes(c: Cache, j: ReadJob)
    requires CacheInv(c) && c.blockSize > 0 && j.piece in c.pieces
    requires JobFits(j, j.piece, |c.pieces[j.piece].blocks|, c.blockSize)
    ensures Serves(c, CopyFromPiece(c, j).0, j, CopyFromPiece(c, j).1, c.blockSize)
    ensures !CopyFromPiece(c, j).1.Referenced? && !FreeNow(c.pieces[j.piece]) ==> CopyFromPiece(c, j).0 == c
  {
    hide CacheInv, EditBlocks, Editable, MaybeFree, FreeNow, Frees, OneRefMore, SameRefs, InOneBlock, BlocksToRead;
    var b := FirstBlock(j, c.blockSize);
    FirstInPiece(j, |c.pieces[j.piece].blocks|, c.blockSize);
    BlocksNeeded(j, c.blockSize);
    FreesRefl(c, j.piece);
    FreesRefs(c, c, j.piece);
    if c.pieces[j.piece].blocks[b].buf.Buf? {
      OneRef(c, j.piece, b);
      MaybeFreeLemma(c, j.piece);
      FreesRefs(c, MaybeFree(c, j.piece), j.piece);
      KeptUnlessFree(c, j.piece);
    }
  }

  lemma KeptUnlessFree(c: Cache, id: PieceId)
    requires CacheInv(c) && id in c.pieces
    ensures !FreeNow(c.pieces[id]) ==> MaybeFree(c, id) == c
  {
    hide CacheInv, EvictPiece;
  }

  /** try_read, told on the blocks before the hit. */
  lemma TryServes(c: Cache, j: ReadJob, now: int)
    requires CanTry(c, j, now)
    ensures var (d, r) := TryRead(c, j, now);
      if j.piece in c.pieces then Serves(c, d, j, r, c.blockSize) else r.Miss? && d == c
  {
    hide CacheInv, CacheHit, CopyFromPiece, JobFits, OneRefMore, SameRefs, InOneBlock;
    if j.piece in c.pieces {
      CacheHitKeeps(c, j.piece, j.requester, j.volatileRead, now);
      CacheHitEffect(c, j.piece, j.requester, j.volatileRead, now);
      HitBlockSize(c, j.piece, j.requester, j.volatileRead, now);
      var h := CacheHit(c, j.piece, j.requester, j.volatileRead, now);
      CopyServes(h, j);
      var d := TryRead(c, j, now).0;
      SameBlocksRefs(c, h, d, j.piece, FirstBlock(j, c.blockSize));
    }
  }

  lemma SameBlocksRefs(c: Cache, h: Cache, d: Cache, id: PieceId, b: int)
    requires h.pieces.Keys == c.pieces.Keys && forall x :: x in c.pieces ==> h.pieces[x].blocks == c.pieces[x].blocks
    ensures SameRefs(h, d) ==> SameRefs(c, d)
    ensures OneRefMore(h, d, id, b) ==> OneRefMore(c, d, id, b)
  {}

  /** The state after try_read; the job itself is not accounted for yet. */
  ghost function Tried(s: State, j: ReadJob, now: int): State
    requires CanTry(s.c, j, now)
  {
    var (d, r) := TryRead(s.c, j, now);
    var b := FirstBlock(j, s.c.blockSize);
    if r.Referenced? then
      FirstInPiece(j, |s.c.pieces[j.piece].blocks|, s.c.blockSize);
      s.(c := d, fl := s.fl + [Flight(Referencing, j.piece, [b], [s.c.pieces[j.piece].blocks[b].buf])])
    else s.(c := d)
  }

  lemma ReferenceLocal(p: Piece, q: Piece, id: PieceId, b: nat, fl: seq<Flight>, log: seq<Event>, hungAt: map<nat, nat>, blockSize: int)
    requires Local(p, id, fl, log, hungAt, blockSize) && b < |p.blocks| && p.blocks[b].buf.Buf?
    requires Editable(p, [b], IncRef) && q == EditAll(p, [b], IncRef)
    ensures Local(q, id, fl + [Flight(Referencing, id, [b], [p.blocks[b].buf])], log, hungAt, blockSize)
  {
    hide Loads, Holds, WroteSince, EditAll, Off, PieceLoads, JobsOk;
    var f := Flight(Referencing, id, [b], [p.blocks[b].buf]);
    EditAllLemma(p, [b], IncRef);
    assert f.bufs == BufsAt(p.blocks, f.blocks);
    HeldBufs(p, q, f);
    HeldLocal(p, q, f, fl, log, hungAt, blockSize);
  }

  lemma ReferenceKeeps(s: State, id: PieceId, b: nat)
    requires Inv(s) && id in s.c.pieces && b < |s.c.pieces[id].blocks| && s.c.pieces[id].blocks[b].buf.Buf?
    ensures Editable(s.c.pieces[id], [b], IncRef)
    ensures Inv(s.(c := EditBlocks(s.c, id, [b], IncRef), fl := s.fl + [Flight(Referencing, id, [b], [s.c.pieces[id].blocks[b].buf])]))
  {
    hide CacheInv, Local, LogOk, Ledger, OthersShrink, EditAll, Put;
    EditableOne(s.c.pieces[id], b, IncRef);
    hide Editable;
    EditKeeps(s.c, id, [b], IncRef);
    EditEffect(s.c, id, [b], IncRef);
    var d := EditBlocks(s.c, id, [b], IncRef);
    OthersSame(s.c, d, id);
    ReferenceLocal(s.c.pieces[id], d.pieces[id], id, b, s.fl, s.log, s.hungAt, s.c.blockSize);
    Begins(s, d, Flight(Referencing, id, [b], [s.c.pieces[id].blocks[b].buf]));
  }

  lemma TriedKeeps(s: State, j: ReadJob, now: int)
    requires Inv(s) && CanTry(s.c, j, now)
    ensures Inv(Tried(s, j, now))
  {
    hide Inv, CacheInv, CacheHit, MaybeFree, EditBlocks, JobFits;
    if j.piece in s.c.pieces {
      var id := j.piece;
      HitKeeps(s, id, j.requester, j.volatileRead, now);
      CacheHitKeeps(s.c, id, j.requester, j.volatileRead, now);
      CacheHitEffect(s.c, id, j.requester, j.volatileRead, now);
      HitBlockSize(s.c, id, j.requester, j.volatileRead, now);
      var c1 := CacheHit(s.c, id, j.requester, j.volatileRead, now);
      var s1 := s.(c := c1);
      FirstInPiece(j, |c1.pieces[id].blocks|, c1.blockSize);
      var b := FirstBlock(j, c1.blockSize);
      if c1.pieces[id].blocks[b].buf.Buf? {
        ReferenceKeeps(s1, id, b);
        FreeKeeps(s1, id);
      }
    }
  }

  ghost predicate StaysRead(s: State, t: State, id: PieceId, now: int) {
    && id in s.c.pieces && id in t.c.pieces && t.c.pieces[id].outstandingRead
    && t.c.pieces[id].readJobs == s.c.pieces[id].readJobs
    && |t.c.pieces[id].blocks| == |s.c.pieces[id].blocks| && t.c.pieces[id].size == s.c.pieces[id].size
    && t.c.blockSize == s.c.blockSize && t.c.clock <= now && CacheInv(t.c)
    && s.fl <= t.fl && t.log == s.log && t.hungAt == s.hungAt
    && t.submitted == s.submitted && t.completed == s.completed && t.failed == s.failed
  }

  /** What try_read leaves of a piece that somebody is reading: all of it. */
  lemma TriedHeld(s: State, j: ReadJob, now: int)
    requires CanTry(s.c, j, now) && j.piece in s.c.pieces && s.c.pieces[j.piece].outstandingRead
    ensures StaysRead(s, Tried(s, j, now), j.piece, now)
    ensures TryRead(s.c, j, now).1.Miss? ==> Tried(s, j, now).fl == s.fl
  {
    hide CacheInv, CacheHit, EditAll, Put, Tally, JobFits, Editable;
    var id := j.piece;
    CacheHitKeeps(s.c, id, j.requester, j.volatileRead, now);
    CacheHitEffect(s.c, id, j.requester, j.volatileRead, now);
    HitBlockSize(s.c, id, j.requester, j.volatileRead, now);
    var c1 := CacheHit(s.c, id, j.requester, j.volatileRead, now);
    FirstInPiece(j, |c1.pieces[id].blocks|, c1.blockSize);
    var b := FirstBlock(j, c1.blockSize);
    if c1.pieces[id].blocks[b].buf.Buf? {
      EditableOne(c1.pieces[id], b, IncRef);
      EditKeeps(c1, id, [b], IncRef);
      EditEffect(c1, id, [b], IncRef);
    }
  }

  // ------------------------------------------------------------ read jobs on the move

  /** The jobs of the piece only moved from book to book. */
  ghost predicate Balances(s: State, t: State, id: PieceId) {
    && (forall j: ReadJob :: j.piece == id ==>
          t.submitted[j] + s.completed[j] + s.failed[j] + Issued(s.fl, j) + Queued(s.c, j) ==
          s.submitted[j] + t.completed[j] + t.failed[j] + Issued(t.fl, j) + Queued(t.c, j))
    && (forall j: ReadJob :: j.piece != id ==>
          t.submitted[j] == s.submitted[j] && t.completed[j] == s.completed[j] && t.failed[j] == s.failed[j])
  }

  lemma JobMoves(s: State, t: State, id: PieceId)
    requires Inv(s) && CacheInv(t.c) && OthersShrink(s.c, t.c, id) && SameElsewhere(s.fl, t.fl, id)
    requires t.log == s.log && t.hungAt == s.hungAt
    requires id in t.c.pieces && Local(t.c.pieces[id], id, t.fl, t.log, t.hungAt, t.c.blockSize)
    requires Balances(s, t, id)
    ensures Inv(t)
  {
    hide CacheInv, Local, LogOk, OthersShrink, SameElsewhere, Issued, Queued;
    forall j: ReadJob | j.piece == id
      ensures t.submitted[j] == t.completed[j] + t.failed[j] + Issued(t.fl, j) + Queued(t.c, j)
    {
      assert s.submitted[j] == s.completed[j] + s.failed[j] + Issued(s.fl, j) + Queued(s.c, j);
    }
    Assemble(s, t, id);
  }

  lemma BooksKeep(s: State, j: ReadJob, submitted: multiset<ReadJob>, completed: multiset<ReadJob>)
    requires Inv(s) && submitted == s.submitted + multiset{j} && completed == s.completed + multiset{j}
    ensures Inv(s.(submitted := submitted, completed := completed))
  {
    hide CacheInv, Local, LogOk, Issued, Queued;
    var t := s.(submitted := submitted, completed := completed);
    forall x: ReadJob ensures t.submitted[x] == t.completed[x] + t.failed[x] + Issued(t.fl, x) + Queued(t.c, x) {
      assert s.submitted[x] == s.completed[x] + s.failed[x] + Issued(s.fl, x) + Queued(s.c, x);
    }
  }

  /** The piece with another queue or read mark. */
  lemma QueueKeepsCache(c: Cache, id: PieceId, q: Piece)
    requires CacheInv(c) && id in c.pieces
    requires q == c.pieces[id].(readJobs := q.readJobs, outstandingRead := q.outstandingRead)
    requires !IsGhost(c.pieces[id].cacheState)
    ensures CacheInv(SetPiece(c, id, q)) && OthersShrink(c, SetPiece(c, id, q), id)
  {
    hide CacheInv, PieceOk, OthersShrink;
    PieceFacts(c, id);
    SetPieceKeeps(c, id, q);
    OthersSame(c, SetPiece(c, id, q), id);
  }

  lemma QueueLocal(p: Piece, q: Piece, id: PieceId, fl: seq<Flight>, log: seq<Event>, hungAt: map<nat, nat>, blockSize: int)
    requires Local(p, id, fl, log, hungAt, blockSize) && q == p.(readJobs := q.readJobs) && ReadsOk(q, id, blockSize)
    ensures Local(q, id, fl, log, hungAt, blockSize)
  {
    hide Loads, Holds, WroteSince, ReadsOk;
    forall k | 0 <= k < |q.blocks| ensures Matches(q, k, Loads(fl, id, k)) { assert Matches(p, k, Loads(fl, id, k)); }
    forall i | 0 <= i < |fl| && fl[i].id == id ensures FlightOk(fl[i], q, log, hungAt, blockSize) {
      assert FlightOk(fl[i], p, log, hungAt, blockSize);
      HoldsBufs(fl[i], p, q);
    }
  }

  lemma ReadsFacts(s: State, id: PieceId)
    requires Inv(s) && id in s.c.pieces
    ensures CacheInv(s.c) && ReadsOk(s.c.pieces[id], id, s.c.blockSize)
    ensures Local(s.c.pieces[id], id, s.fl, s.log, s.hungAt, s.c.blockSize)
  {
    hide CacheInv, LogOk, Ledger, PieceLoads, JobsOk, HashOk, ReadsOk, FlightOk;
  }

  /** A reading flight: its piece is marked as being read. */
  predicate Reader(f: Flight) { f.kind.Reading? || f.kind.Serving? }

  lemma ReaderFacts(s: State, i: nat)
    requires Inv(s) && i < |s.fl| && Reader(s.fl[i])
    ensures s.fl[i].id in s.c.pieces && s.c.pieces[s.fl[i].id].outstandingRead && OwnJobs(s.fl[i])
    ensures !IsGhost(s.c.pieces[s.fl[i].id].cacheState) && |s.c.pieces[s.fl[i].id].blocks| > 0
    ensures FlightOk(s.fl[i], s.c.pieces[s.fl[i].id], s.log, s.hungAt, s.c.blockSize) && s.c.blockSize > 0
  {
    hide CacheInv, LogOk, Ledger, PieceOk, Loads, WroteSince, Holds;
    var f := s.fl[i];
    PieceFacts(s.c, f.id);
    CacheFacts(s.c);
    HasBlocks(s.c.pieces[f.id], s.c.blockSize);
    LoadsAtLeast(s.fl, i, f.id, 0);
    assert Matches(s.c.pieces[f.id], 0, Loads(s.fl, f.id, 0));
    NotGhost(s.c, f.id);
  }

  /** A reading flight goes on with another job, and its piece with another queue. */
  lemma CarryLocal(p: Piece, q: Piece, fl: seq<Flight>, i: nat, f: Flight, log: seq<Event>, hungAt: map<nat, nat>, blockSize: int)
    requires i < |fl| && Reader(fl[i]) && Reader(f) && f == fl[i].(kind := f.kind)
    requires Local(p, f.id, fl, log, hungAt, blockSize) && q == p.(readJobs := q.readJobs) && ReadsOk(q, f.id, blockSize)
    requires FlightOk(f, q, log, hungAt, blockSize)
    ensures Local(q, f.id, fl[i := f], log, hungAt, blockSize)
  {
    hide Loads, Holds, WroteSince, ReadsOk;
    var gl := fl[i := f];
    forall k | 0 <= k < |q.blocks| ensures Matches(q, k, Loads(gl, f.id, k)) {
      LoadsReplace(fl, i, f, f.id, k);
      assert Matches(p, k, Loads(fl, f.id, k));
    }
    forall a | 0 <= a < |gl| && gl[a].id == f.id ensures FlightOk(gl[a], q, log, hungAt, blockSize) {
      if a != i {
        assert FlightOk(fl[a], p, log, hungAt, blockSize);
        HoldsBufs(fl[a], p, q);
      }
    }
  }

  /** The flight takes the kind `kind`, the queue becomes `jobs`, and of the piece's
      jobs those in `done` are completed and those in `lost` failed. */
  ghost function Moved(s: State, i: nat, kind: Kind, jobs: seq<ReadJob>, done: multiset<ReadJob>, lost: multiset<ReadJob>): State
    requires i < |s.fl| && s.fl[i].id in s.c.pieces
  {
    var f := s.fl[i];
    s.(c := SetPiece(s.c, f.id, s.c.pieces[f.id].(readJobs := jobs)), fl := s.fl[i := f.(kind := kind)],
       completed := s.completed + done, failed := s.failed + lost)
  }

  lemma MovedKeeps(s: State, i: nat, kind: Kind, jobs: seq<ReadJob>, done: multiset<ReadJob>, lost: multiset<ReadJob>)
    requires Inv(s) && i < |s.fl| && Reader(s.fl[i]) && s.fl[i].id in s.c.pieces && (kind.Reading? || kind.Serving?)
    requires OwnJobs(s.fl[i].(kind := kind)) && forall j :: j in done + lost ==> j.piece == s.fl[i].id
    requires forall j :: Carries(s.fl[i], j) + multiset(s.c.pieces[s.fl[i].id].readJobs)[j] ==
                         Carries(s.fl[i].(kind := kind), j) + multiset(jobs)[j] + done[j] + lost[j]
    requires ReadsOk(s.c.pieces[s.fl[i].id].(readJobs := jobs), s.fl[i].id, s.c.blockSize)
    requires FlightOk(s.fl[i].(kind := kind), s.c.pieces[s.fl[i].id].(readJobs := jobs), s.log, s.hungAt, s.c.blockSize)
    ensures Inv(Moved(s, i, kind, jobs, done, lost))
  {
    hide CacheInv, Local, LogOk, Ledger, OthersShrink, SameElsewhere, Issued, FlightOk, ReadsOk, PieceOk;
    var f := s.fl[i];
    var p := s.c.pieces[f.id];
    var t := Moved(s, i, kind, jobs, done, lost);
    ReaderFacts(s, i);
    ReadsFacts(s, f.id);
    QueueKeepsCache(s.c, f.id, t.c.pieces[f.id]);
    CarryLocal(p, t.c.pieces[f.id], s.fl, i, t.fl[i], s.log, s.hungAt, s.c.blockSize);
    ElsewhereReplace(s.fl, i, t.fl[i]);
    forall j: ReadJob { IssuedReplace(s.fl, i, t.fl[i], j); }
    hide Carries;
    JobMoves(s, t, f.id);
  }

  // --------------------------------------------------- maybe_issue_queued_read_jobs

  ghost predicate CanServe(s: State, i: nat, now: int) {
    && i < |s.fl| && s.fl[i].kind.Serving? && s.fl[i].id in s.c.pieces && s.c.pieces[s.fl[i].id].outstandingRead
    && s.c.pieces[s.fl[i].id].readJobs != [] && s.c.pieces[s.fl[i].id].readJobs[0].piece == s.fl[i].id
    && CanTry(s.c, s.c.pieces[s.fl[i].id].readJobs[0], now)
  }

  /** The first job of the queue after it was tried: a hit completes, the first miss
      will be issued, any other miss goes back into the queue. */
  ghost function Sorted(u: State, i: nat, hit: bool): State
    requires i < |u.fl| && u.fl[i].kind.Serving? && u.fl[i].id in u.c.pieces && u.c.pieces[u.fl[i].id].readJobs != []
  {
    var jobs := u.c.pieces[u.fl[i].id].readJobs;
    var j, rest := jobs[0], jobs[1..];
    if hit then Moved(u, i, u.fl[i].kind, rest, multiset{j}, multiset{})
    else if u.fl[i].kind.next.None? then Moved(u, i, Serving(Some(j)), rest, multiset{}, multiset{})
    else Moved(u, i, u.fl[i].kind, rest + [j], multiset{}, multiset{})
  }

  /** One round of the loop. */
  ghost function ServeOne(s: State, i: nat, now: int): State
    requires CanServe(s, i, now)
  {
    var j := s.c.pieces[s.fl[i].id].readJobs[0];
    TriedHeld(s, j, now);
    Sorted(Tried(s, j, now), i, !TryRead(s.c, j, now).1.Miss?)
  }

  lemma HeadOff(jobs: seq<ReadJob>)
    requires jobs != []
    ensures forall j :: multiset(jobs)[j] == multiset(jobs[1..])[j] + multiset{jobs[0]}[j]
    ensures forall j :: multiset(jobs[1..] + [jobs[0]])[j] == multiset(jobs)[j]
  {
    assert jobs == [jobs[0]] + jobs[1..];
  }

  lemma ReadsTail(p: Piece, id: PieceId, blockSize: int)
    requires ReadsOk(p, id, blockSize) && p.readJobs != []
    ensures ReadsOk(p.(readJobs := p.readJobs[1..]), id, blockSize)
    ensures ReadsOk(p.(readJobs := p.readJobs[1..] + [p.readJobs[0]]), id, blockSize)
    ensures JobFits(p.readJobs[0], id, |p.blocks|, blockSize)
  {
    hide JobFits;
  }

  /** A reading flight may carry any job that fits its piece. */
  lemma ReaderKind(f: Flight, p: Piece, q: Piece, kind: Kind, log: seq<Event>, hungAt: map<nat, nat>, blockSize: int)
    requires Reader(f) && FlightOk(f, p, log, hungAt, blockSize) && q == p.(readJobs := q.readJobs)
    requires kind == Serving(None) || (kind.Serving? && kind.next.Some? && JobFits(kind.next.value, f.id, |p.blocks|, blockSize)) ||
             (kind.Reading? && f.blocks == [] && JobFits(kind.job, f.id, |p.blocks|, blockSize))
    ensures FlightOk(f.(kind := kind), q, log, hungAt, blockSize) && OwnJobs(f.(kind := kind))
  {
    hide WroteSince;
    HoldsBufs(f, p, q);
    SameHolds(f, f.(kind := kind), q);
  }

  lemma SortedKeeps(u: State, i: nat, hit: bool)
    requires Inv(u) && i < |u.fl| && u.fl[i].kind.Serving? && u.fl[i].id in u.c.pieces && u.c.pieces[u.fl[i].id].readJobs != []
    ensures Inv(Sorted(u, i, hit))
  {
    hide Inv, CacheInv, FlightOk, ReadsOk, JobFits;
    var f := u.fl[i];
    var q := u.c.pieces[f.id];
    var j, rest := q.readJobs[0], q.readJobs[1..];
    ReaderFacts(u, i);
    ReadsFacts(u, f.id);
    HeadOff(q.readJobs);
    ReadsTail(q, f.id, u.c.blockSize);
    HeadOwn(q, f.id, u.c.blockSize);
    if hit {
      ReaderSame(f, q, rest, u.log, u.hungAt, u.c.blockSize);
      MovedKeeps(u, i, f.kind, rest, multiset{j}, multiset{});
    } else if f.kind.next.None? {
      ReaderKind(f, q, q.(readJobs := rest), Serving(Some(j)), u.log, u.hungAt, u.c.blockSize);
      MovedKeeps(u, i, Serving(Some(j)), rest, multiset{}, multiset{});
    } else {
      ReaderSame(f, q, rest + [j], u.log, u.hungAt, u.c.blockSize);
      MovedKeeps(u, i, f.kind, rest + [j], multiset{}, multiset{});
    }
  }

  lemma HeadOwn(p: Piece, id: PieceId, blockSize: int)
    requires ReadsOk(p, id, blockSize) && p.readJobs != []
    ensures p.readJobs[0].piece == id
  {}

  lemma ServeOneKeeps(s: State, i: nat, now: int)
    requires Inv(s) && CanServe(s, i, now)
    ensures var t := ServeOne(s, i, now);
      && Inv(t) && |t.fl| >= |s.fl| && t.fl[i] == s.fl[i].(kind := t.fl[i].kind) && t.fl[i].kind.Serving?
      && StillRead(s, t, s.fl[i].id, now)
      && (t.fl[i].kind.next.None? ==> s.fl[i].kind.next.None? && |t.c.pieces[s.fl[i].id].readJobs| == |s.c.pieces[s.fl[i].id].readJobs| - 1)
      && |t.c.pieces[s.fl[i].id].readJobs| >= |s.c.pieces[s.fl[i].id].readJobs| - 1
  {
    hide Inv, CacheInv, TryRead, Tried, CanTry;
    var j := s.c.pieces[s.fl[i].id].readJobs[0];
    TriedHeld(s, j, now);
    TriedKeeps(s, j, now);
    var u := Tried(s, j, now);
    assert u.fl[i] == s.fl[i];
    SortedKeeps(u, i, !TryRead(s.c, j, now).1.Miss?);
  }

  lemma ReaderSame(f: Flight, p: Piece, jobs: seq<ReadJob>, log: seq<Event>, hungAt: map<nat, nat>, blockSize: int)
    requires Reader(f) && FlightOk(f, p, log, hungAt, blockSize) && OwnJobs(f)
    ensures FlightOk(f, p.(readJobs := jobs), log, hungAt, blockSize) && f.(kind := f.kind) == f
  {
    hide WroteSince;
    HoldsBufs(f, p, p.(readJobs := jobs));
  }

  /** The piece is still being read, and of the books only `completed` grew. */
  ghost predicate StillRead(s: State, t: State, id: PieceId, now: int) {
    && id in s.c.pieces && id in t.c.pieces && t.c.pieces[id].outstandingRead
    && |t.c.pieces[id].blocks| == |s.c.pieces[id].blocks| && t.c.blockSize == s.c.blockSize && t.c.clock <= now
    && t.submitted == s.submitted && t.failed == s.failed && t.log == s.log
  }

  lemma ServeEnabled(s: State, i: nat, now: int)
    requires Inv(s) && i < |s.fl| && s.fl[i].kind.Serving? && now >= s.c.clock
    requires s.fl[i].id in s.c.pieces && s.c.pieces[s.fl[i].id].readJobs != []
    ensures CanServe(s, i, now)
  {
    hide Inv, CacheInv, FlightOk, ReadsOk, JobFits, PieceOk, HashOk;
    ReaderFacts(s, i);
    ReadsFacts(s, s.fl[i].id);
    ReadsTail(s.c.pieces[s.fl[i].id], s.fl[i].id, s.c.blockSize);
    HeadOwn(s.c.pieces[s.fl[i].id], s.fl[i].id, s.c.blockSize);
    InvFacts(s, s.fl[i].id);
  }

  /** The loop over the queue as it was found: `n` jobs are tried. */
  ghost function ServeAll(s: State, i: nat, n: nat, now: int): State
    requires Inv(s) && i < |s.fl| && s.fl[i].kind.Serving? && now >= s.c.clock && s.fl[i].id in s.c.pieces
    requires |s.c.pieces[s.fl[i].id].readJobs| >= n
    decreases n
  {
    if n == 0 then s else
      ServeEnabled(s, i, now);
      ServeOneKeeps(s, i, now);
      ServeAll(ServeOne(s, i, now), i, n - 1, now)
  }

  /** After the loop either a job is to be issued or the queue is empty. */
  lemma {:induction false} ServeAllKeeps(s: State, i: nat, n: nat, now: int)
    requires Inv(s) && i < |s.fl| && s.fl[i].kind.Serving? && now >= s.c.clock && s.fl[i].id in s.c.pieces
    requires |s.c.pieces[s.fl[i].id].readJobs| >= n
    requires s.fl[i].kind.next.None? ==> |s.c.pieces[s.fl[i].id].readJobs| == n
    ensures var t := ServeAll(s, i, n, now);
      && Inv(t) && i < |t.fl| && t.fl[i] == s.fl[i].(kind := t.fl[i].kind) && t.fl[i].kind.Serving?
      && t.c.clock <= now && t.fl[i].id in t.c.pieces && t.submitted == s.submitted && t.log == s.log
      && (t.fl[i].kind.next.None? ==> t.c.pieces[t.fl[i].id].readJobs == [])
    decreases n
  {
    hide Inv, CacheInv, CanServe, ServeOne;
    if n > 0 {
      ServeEnabled(s, i, now);
      ServeOneKeeps(s, i, now);
      ServeAllKeeps(ServeOne(s, i, now), i, n - 1, now);
    }
  }

  /** All blocks the job asks for are in the cache. */
  predicate Cached(bs: seq<Block>, j: ReadJob, blockSize: int)
    requires blockSize > 0
  {
    var b := j.offset / blockSize;
    0 <= b < |bs| && bs[b].buf.Buf? && (InOneBlock(j, blockSize) || (b + 1 < |bs| && bs[b + 1].buf.Buf?))
  }

  /** The jobs, in their order, whose blocks are all cached, or are not. */
  function Select(jobs: seq<ReadJob>, bs: seq<Block>, blockSize: int, cached: bool): seq<ReadJob>
    requires blockSize > 0
  {
    if jobs == [] then [] else
      (if Cached(bs, jobs[0], blockSize) == cached then [jobs[0]] else []) + Select(jobs[1..], bs, blockSize, cached)
  }

  predicate SameBufs(bs: seq<Block>, ds: seq<Block>) {
    |ds| == |bs| && forall k :: 0 <= k < |bs| ==> ds[k].buf == bs[k].buf
  }

  lemma {:induction false} SelectAlike(jobs: seq<ReadJob>, bs: seq<Block>, ds: seq<Block>, blockSize: int, cached: bool)
    requires blockSize > 0 && SameBufs(bs, ds)
    ensures Select(jobs, ds, blockSize, cached) == Select(jobs, bs, blockSize, cached)
  {
    if jobs != [] { SelectAlike(jobs[1..], bs, ds, blockSize, cached); }
  }

  /** While the piece is being read, trying a job takes no buffer from it. */
  lemma TriedBufs(s: State, j: ReadJob, now: int)
    requires CanTry(s.c, j, now) && j.piece in s.c.pieces && s.c.pieces[j.piece].outstandingRead
    ensures var (d, r) := TryRead(s.c, j, now);
      && j.piece in d.pieces && SameBufs(s.c.pieces[j.piece].blocks, d.pieces[j.piece].blocks)
      && (r.Miss? <==> !Cached(s.c.pieces[j.piece].blocks, j, s.c.blockSize))
  {
    hide CacheInv, CacheHit, CopyFromPiece, JobFits, SameRefs, InOneBlock;
    TryServes(s.c, j, now);
    CacheHitKeeps(s.c, j.piece, j.requester, j.volatileRead, now);
    CacheHitEffect(s.c, j.piece, j.requester, j.volatileRead, now);
    HitBlockSize(s.c, j.piece, j.requester, j.volatileRead, now);
    CopyServes(CacheHit(s.c, j.piece, j.requester, j.volatileRead, now), j);
  }

  /** The books after one round: a hit completes its job, and nothing else does. */
  lemma ServeOneFate(s: State, i: nat, now: int)
    requires Inv(s) && CanServe(s, i, now)
    ensures var t := ServeOne(s, i, now); var id := s.fl[i].id; var p := s.c.pieces[id];
      var j, rest, next := p.readJobs[0], p.readJobs[1..], s.fl[i].kind.next; var hit := Cached(p.blocks, j, s.c.blockSize);
      && i < |t.fl| && t.fl[i].id == id && id in t.c.pieces && SameBufs(p.blocks, t.c.pieces[id].blocks) && t.c.blockSize == s.c.blockSize
      && t.fl[i].kind == (if !hit && next.None? then Serving(Some(j)) else s.fl[i].kind)
      && t.c.pieces[id].readJobs == (if !hit && next.Some? then rest + [j] else rest)
      && t.completed == s.completed + (if hit then multiset{j} else multiset{}) && t.failed == s.failed
  {
    hide Inv, CacheInv, TryRead, CanTry, Cached, JobFits;
    var j := s.c.pieces[s.fl[i].id].readJobs[0];
    TriedHeld(s, j, now);
    TriedBufs(s, j, now);
    var u := Tried(s, j, now);
    assert u.fl[i] == s.fl[i];
    TriedCache(s, j, now);
  }

  lemma TriedCache(s: State, j: ReadJob, now: int)
    requires CanTry(s.c, j, now)
    ensures Tried(s, j, now).c == TryRead(s.c, j, now).0
  {}

  lemma SelectFirst(jobs: seq<ReadJob>, n: nat, bs: seq<Block>, blockSize: int, cached: bool)
    requires blockSize > 0 && 0 < n <= |jobs|
    ensures Select(jobs[..n], bs, blockSize, cached) ==
            (if Cached(bs, jobs[0], blockSize) == cached then [jobs[0]] else []) + Select(jobs[1..][..n - 1], bs, blockSize, cached)
  {
    assert jobs[..n][1..] == jobs[1..][..n - 1];
  }

  /** What the loop over the queue comes to. Exactly the jobs whose blocks are cached
      complete; the first of the others is issued, if none was to be issued already, and
      the rest of them wait in their order behind what was not tried. */
  lemma {:induction false} QueueServed(s: State, i: nat, n: nat, now: int)
    requires Inv(s) && i < |s.fl| && s.fl[i].kind.Serving? && now >= s.c.clock && s.fl[i].id in s.c.pieces && s.c.blockSize > 0
    requires n <= |s.c.pieces[s.fl[i].id].readJobs|
    requires s.fl[i].kind.next.None? ==> |s.c.pieces[s.fl[i].id].readJobs| == n
    ensures ServedQueue(s, ServeAll(s, i, n, now), i, n)
    decreases n
  {
    hide Inv, CacheInv, CanServe, ServeOne, Cached, Select;
    var queue := s.c.pieces[s.fl[i].id].readJobs;
    if n > 0 {
      ServeEnabled(s, i, now);
      ServeOneKeeps(s, i, now);
      ServeOneFate(s, i, now);
      var u := ServeOne(s, i, now);
      QueueServed(u, i, n - 1, now);
      ServedMore(s, u, ServeAll(s, i, n, now), i, n);
    } else {
      SelectNone(s.c.pieces[s.fl[i].id].blocks, s.c.blockSize);
      assert queue[..0] == [] && queue[0..] == queue;
    }
  }

  /** Of the first `n` jobs those with their blocks cached are done. The first of the others
      is next, unless there was a next one, and the rest follow the jobs not tried. */
  predicate Split(jobs: seq<ReadJob>, n: nat, bs: seq<Block>, blockSize: int, next: Option<ReadJob>,
                  done: seq<ReadJob>, next': Option<ReadJob>, left: seq<ReadJob>)
    requires blockSize > 0 && n <= |jobs|
  {
    var misses := Select(jobs[..n], bs, blockSize, false);
    && done == Select(jobs[..n], bs, blockSize, true)
    && if next.None? && misses != [] then next' == Some(misses[0]) && left == jobs[n..] + misses[1..]
       else next' == next && left == jobs[n..] + misses
  }

  ghost predicate ServedQueue(s: State, t: State, i: nat, n: nat) {
    && i < |s.fl| && i < |t.fl| && s.fl[i].kind.Serving? && t.fl[i].kind.Serving? && t.fl[i].id == s.fl[i].id
    && s.fl[i].id in s.c.pieces && s.fl[i].id in t.c.pieces
    && s.c.blockSize > 0 && n <= |s.c.pieces[s.fl[i].id].readJobs|
    && t.failed == s.failed
    && var p := s.c.pieces[s.fl[i].id];
    && var done := Select(p.readJobs[..n], p.blocks, s.c.blockSize, true);
    && t.completed == s.completed + multiset(done)
    && Split(p.readJobs, n, p.blocks, s.c.blockSize, s.fl[i].kind.next, done, t.fl[i].kind.next, t.c.pieces[s.fl[i].id].readJobs)
  }

  /** What the first of the jobs adds to the selection, when the others are behind it. */
  lemma SelectMore(jobs: seq<ReadJob>, n: nat, bs: seq<Block>, ds: seq<Block>, blockSize: int, more: seq<ReadJob>, cached: bool)
    requires blockSize > 0 && 0 < n <= |jobs| && SameBufs(bs, ds)
    requires jobs[1..] <= more
    ensures Select(jobs[..n], bs, blockSize, cached) ==
            (if Cached(bs, jobs[0], blockSize) == cached then [jobs[0]] else []) + Select(more[..n - 1], ds, blockSize, cached)
  {
    hide Cached, Select, SameBufs;
    assert more[..n - 1] == jobs[1..][..n - 1];
    SelectAlike(more[..n - 1], bs, ds, blockSize, cached);
    SelectFirst(jobs, n, bs, blockSize, cached);
  }

  lemma SplitMore(jobs: seq<ReadJob>, n: nat, bs: seq<Block>, blockSize: int, next: Option<ReadJob>, more: seq<ReadJob>, ds: seq<Block>,
                  next1: Option<ReadJob>, next2: Option<ReadJob>, left: seq<ReadJob>)
    requires blockSize > 0 && 0 < n <= |jobs| && SameBufs(bs, ds) && (next.None? ==> |jobs| == n)
    requires var hit := Cached(bs, jobs[0], blockSize);
      && next1 == (if !hit && next.None? then Some(jobs[0]) else next)
      && more == jobs[1..] + (if !hit && next.Some? then [jobs[0]] else [])
    requires Split(more, n - 1, ds, blockSize, next1, Select(more[..n - 1], ds, blockSize, true), next2, left)
    ensures Select(jobs[..n], bs, blockSize, true) ==
            (if Cached(bs, jobs[0], blockSize) then [jobs[0]] else []) + Select(more[..n - 1], ds, blockSize, true)
    ensures Split(jobs, n, bs, blockSize, next, Select(jobs[..n], bs, blockSize, true), next2, left)
  {
    hide Cached, Select, SameBufs;
    SelectMore(jobs, n, bs, ds, blockSize, more, true);
    SelectMore(jobs, n, bs, ds, blockSize, more, false);
    var hit := Cached(bs, jobs[0], blockSize);
    var misses, misses1 := Select(jobs[..n], bs, blockSize, false), Select(more[..n - 1], ds, blockSize, false);
    var end := if !hit && next.Some? then [jobs[0]] else [];
    assert more[n - 1..] == jobs[n..] + end;
    assert misses == (if hit then [] else [jobs[0]]) + misses1;
    hide Split;
    SplitIs(more, n - 1, ds, blockSize, next1, next2, left);
    if hit {
      assert misses == misses1;
    } else {
      assert misses[1..] == misses1;
      assert jobs[n..] + ([jobs[0]] + misses1) == (jobs[n..] + [jobs[0]]) + misses1;
    }
    SplitIs(jobs, n, bs, blockSize, next, next2, left);
  }

  lemma SplitIs(jobs: seq<ReadJob>, n: nat, bs: seq<Block>, blockSize: int, next: Option<ReadJob>, next': Option<ReadJob>, left: seq<ReadJob>)
    requires blockSize > 0 && n <= |jobs|
    ensures var misses := Select(jobs[..n], bs, blockSize, false);
      Split(jobs, n, bs, blockSize, next, Select(jobs[..n], bs, blockSize, true), next', left) <==>
        if next.None? && misses != [] then next' == Some(misses[0]) && left == jobs[n..] + misses[1..]
        else next' == next && left == jobs[n..] + misses
  {
    hide Select;
  }

  lemma SelectNone(bs: seq<Block>, blockSize: int)
    requires blockSize > 0
    ensures Select([], bs, blockSize, true) == [] && Select([], bs, blockSize, false) == []
  {}

  lemma ServedMore(s: State, u: State, t: State, i: nat, n: nat)
    requires i < |s.fl| && i < |u.fl| && s.fl[i].kind.Serving? && u.fl[i].id == s.fl[i].id && s.fl[i].id in s.c.pieces && s.fl[i].id in u.c.pieces
    requires s.c.blockSize > 0 && u.c.blockSize == s.c.blockSize && 0 < n <= |s.c.pieces[s.fl[i].id].readJobs|
    requires s.fl[i].kind.next.None? ==> |s.c.pieces[s.fl[i].id].readJobs| == n
    requires u.fl[i].kind.Serving?
    requires var p, q, next := s.c.pieces[s.fl[i].id], u.c.pieces[s.fl[i].id], s.fl[i].kind.next;
      var j, rest := p.readJobs[0], p.readJobs[1..]; var hit := Cached(p.blocks, j, s.c.blockSize);
      && SameBufs(p.blocks, q.blocks)
      && u.fl[i].kind.next == (if !hit && next.None? then Some(j) else next)
      && q.readJobs == (if !hit && next.Some? then rest + [j] else rest)
      && u.completed == s.completed + (if hit then multiset{j} else multiset{}) && u.failed == s.failed
    requires ServedQueue(u, t, i, n - 1)
    ensures ServedQueue(s, t, i, n)
  {
    hide Cached, Select, SameBufs, Split;
    var p, q := s.c.pieces[s.fl[i].id], u.c.pieces[s.fl[i].id];
    SplitMore(p.readJobs, n, p.blocks, s.c.blockSize, s.fl[i].kind.next, q.readJobs, q.blocks, u.fl[i].kind.next,
              t.fl[i].kind.next, t.c.pieces[s.fl[i].id].readJobs);
  }

  /** The other way the section may go: shutting down, every queued job fails. */
  ghost function FailQueued(s: State, i: nat): State
    requires i < |s.fl| && s.fl[i].id in s.c.pieces
  {
    Moved(s, i, Serving(None), [], multiset{}, multiset(s.c.pieces[s.fl[i].id].readJobs))
  }

  lemma FailQueuedKeeps(s: State, i: nat)
    requires Inv(s) && i < |s.fl| && s.fl[i].kind == Serving(None) && s.fl[i].id in s.c.pieces
    ensures Inv(FailQueued(s, i))
  {
    hide Inv, CacheInv, FlightOk, JobFits;
    var f := s.fl[i];
    var q := s.c.pieces[f.id];
    ReaderFacts(s, i);
    ReadsFacts(s, f.id);
    OwnQueue(q, f.id, s.c.blockSize);
    ReaderKind(f, q, q.(readJobs := []), Serving(None), s.log, s.hungAt, s.c.blockSize);
    MovedKeeps(s, i, Serving(None), [], multiset{}, multiset(q.readJobs));
  }

  lemma OwnQueue(p: Piece, id: PieceId, blockSize: int)
    requires ReadsOk(p, id, blockSize)
    ensures forall j :: j in multiset(p.readJobs) ==> j.piece == id
  {
    hide JobFits;
    forall j | j in multiset(p.readJobs) ensures j.piece == id {
      assert j in p.readJobs;
      var a :| 0 <= a < |p.readJobs| && p.readJobs[a] == j;
      OwnFits(p.readJobs[a], id, |p.blocks|, blockSize);
    }
  }

  lemma OwnFits(j: ReadJob, id: PieceId, blocks: int, blockSize: int)
    requires JobFits(j, id, blocks, blockSize)
    ensures j.piece == id
  {}

  // ------------------------------------------------- letting go of the blocks read

  /** The references that insert_blocks took are given back. */
  ghost function Release(s: State, i: nat): State
    requires i < |s.fl| && s.fl[i].id in s.c.pieces && Editable(s.c.pieces[s.fl[i].id], s.fl[i].blocks, DecRef)
  {
    var f := s.fl[i];
    s.(c := EditBlocks(s.c, f.id, f.blocks, DecRef), fl := s.fl[i := f.(blocks := [], bufs := [])])
  }

  lemma ReleaseLocal(p: Piece, q: Piece, fl: seq<Flight>, i: nat, log: seq<Event>, hungAt: map<nat, nat>, blockSize: int)
    requires i < |fl| && Reader(fl[i]) && Local(p, fl[i].id, fl, log, hungAt, blockSize) && Editable(p, fl[i].blocks, DecRef)
    requires q == EditAll(p, fl[i].blocks, DecRef)
    ensures Local(q, fl[i].id, fl[i := fl[i].(blocks := [], bufs := [])], log, hungAt, blockSize)
  {
    hide EditAll, WroteSince, Loads, Holds;
    var f := fl[i];
    var g := f.(blocks := [], bufs := []);
    EditAllLemma(p, f.blocks, DecRef);
    var gl := fl[i := g];
    forall k | 0 <= k < |q.blocks| ensures Matches(q, k, Loads(gl, f.id, k)) {
      LoadsReplace(fl, i, g, f.id, k);
      assert Matches(p, k, Loads(fl, f.id, k));
    }
    forall a | 0 <= a < |gl| && gl[a].id == f.id ensures FlightOk(gl[a], q, log, hungAt, blockSize) {
      assert FlightOk(fl[a], p, log, hungAt, blockSize);
      if a == i { HoldsNothing(g, q); } else { HoldsSame(fl[a], p, q); }
    }
  }

  lemma HoldsNothing(f: Flight, p: Piece)
    requires f.blocks == [] && f.bufs == []
    ensures Holds(f, p)
  {}

  lemma ReleaseKeeps(s: State, i: nat)
    requires Inv(s) && i < |s.fl| && Reader(s.fl[i])
    ensures s.fl[i].id in s.c.pieces && Editable(s.c.pieces[s.fl[i].id], s.fl[i].blocks, DecRef)
    ensures Inv(Release(s, i))
    ensures Release(s, i).c.pieces == s.c.pieces[s.fl[i].id := Release(s, i).c.pieces[s.fl[i].id]]
    ensures Release(s, i).c.pieces[s.fl[i].id].readJobs == s.c.pieces[s.fl[i].id].readJobs
    ensures Release(s, i).c.clock == s.c.clock
  {
    hide CacheInv, Local, LogOk, Ledger, OthersShrink, EditAll, Put, FlightOk;
    var f := s.fl[i];
    ReaderFacts(s, i);
    HeldEditable(s.c.pieces[f.id], s.fl, i, s.log, s.hungAt, s.c.blockSize);
    hide Editable;
    EditKeeps(s.c, f.id, f.blocks, DecRef);
    EditEffect(s.c, f.id, f.blocks, DecRef);
    var t := Release(s, i);
    OthersSame(s.c, t.c, f.id);
    ReleaseLocal(s.c.pieces[f.id], t.c.pieces[f.id], s.fl, i, s.log, s.hungAt, s.c.blockSize);
    Continues(s, t.c, i, t.fl[i]);
  }

  // ---------------------------------------------------------- the end of the section

  /** No job is left for the piece: it is not being read any more. */
  ghost function Quit(s: State, i: nat): State
    requires i < |s.fl| && s.fl[i].id in s.c.pieces
  {
    s.(c := SetPiece(s.c, s.fl[i].id, s.c.pieces[s.fl[i].id].(outstandingRead := false)), fl := Drop(s.fl, i))
  }

  lemma QuitKeeps(s: State, i: nat)
    requires Inv(s) && i < |s.fl| && s.fl[i].kind == Serving(None) && s.fl[i].blocks == [] && s.fl[i].id in s.c.pieces
    requires s.c.pieces[s.fl[i].id].readJobs == []
    ensures Inv(Quit(s, i))
  {
    hide CacheInv, Local, LogOk, Ledger, OthersShrink, SameElsewhere, Issued, FlightOk, PieceOk, Carries;
    var f := s.fl[i];
    var p := s.c.pieces[f.id];
    var t := Quit(s, i);
    ReaderFacts(s, i);
    ReadsFacts(s, f.id);
    QueueKeepsCache(s.c, f.id, t.c.pieces[f.id]);
    ElsewhereDrop(s.fl, i);
    QuitLocal(p, t.c.pieces[f.id], s.fl, i, s.log, s.hungAt, s.c.blockSize);
    forall j: ReadJob ensures Issued(t.fl, j) == Issued(s.fl, j) {
      IssuedDrop(s.fl, i, j);
      CarriesNone(f, j);
    }
    JobMoves(s, t, f.id);
  }

  lemma CarriesNone(f: Flight, j: ReadJob)
    requires f.kind == Serving(None)
    ensures Carries(f, j) == 0
  {}

  lemma QuitLocal(p: Piece, q: Piece, fl: seq<Flight>, i: nat, log: seq<Event>, hungAt: map<nat, nat>, blockSize: int)
    requires i < |fl| && fl[i].kind == Serving(None) && fl[i].blocks == [] && Local(p, fl[i].id, fl, log, hungAt, blockSize)
    requires q == p.(outstandingRead := false) && p.outstandingRead && p.readJobs == [] && |p.blocks| > 0
    ensures Local(q, fl[i].id, Drop(fl, i), log, hungAt, blockSize)
  {
    hide EditAll, WroteSince, Loads, FlightOk, PieceLoads, JobsOk;
    assert Editable(p, [], DecRef);
    EditAllEmpty(p, DecRef);
    DroppedLocal(p, q, fl, i, log, hungAt, blockSize);
  }

  lemma EditAllEmpty(p: Piece, e: Edit)
    ensures EditAll(p, [], e) == p
  {}

  /** The next job of the piece is issued. */
  ghost function Reissue(s: State, i: nat): State
    requires i < |s.fl| && s.fl[i].kind.Serving? && s.fl[i].kind.next.Some? && s.fl[i].id in s.c.pieces
  {
    Moved(s, i, Reading(s.fl[i].kind.next.value), s.c.pieces[s.fl[i].id].readJobs, multiset{}, multiset{})
  }

  lemma ReissueKeeps(s: State, i: nat)
    requires Inv(s) && i < |s.fl| && s.fl[i].kind.Serving? && s.fl[i].kind.next.Some? && s.fl[i].blocks == []
    requires s.fl[i].id in s.c.pieces
    ensures Inv(Reissue(s, i))
  {
    hide Inv, CacheInv, JobFits, ReadsOk, HashOk;
    var f := s.fl[i];
    var q := s.c.pieces[f.id];
    ReaderFacts(s, i);
    ReadsFacts(s, f.id);
    var kind := Reading(f.kind.next.value);
    ReaderKind(f, q, q.(readJobs := q.readJobs), kind, s.log, s.hungAt, s.c.blockSize);
    hide FlightOk;
    MovedKeeps(s, i, kind, q.readJobs, multiset{}, multiset{});
  }

  /** The end of maybe_issue_queued_read_jobs and of do_read. While the section holds
      references to the blocks it read, the piece cannot be freed. */
  ghost function CloseRead(s: State, i: nat): State
    requires Inv(s) && i < |s.fl| && s.fl[i].kind.Serving?
    requires s.fl[i].kind.next.None? ==> s.fl[i].id in s.c.pieces && s.c.pieces[s.fl[i].id].readJobs == []
  {
    hide Inv, CacheInv, EditBlocks, MaybeFree, Local;
    ReleaseKeeps(s, i);
    var r := Release(s, i);
    if s.fl[i].kind.next.Some? then Reissue(r, i) else
      QuitKeeps(r, i);
      var q := Quit(r, i);
      InInv(q);
      if s.fl[i].blocks == [] then q.(c := MaybeFree(q.c, s.fl[i].id)) else q
  }

  lemma CloseReadKeeps(s: State, i: nat)
    requires Inv(s) && i < |s.fl| && s.fl[i].kind.Serving?
    requires s.fl[i].kind.next.None? ==> s.fl[i].id in s.c.pieces && s.c.pieces[s.fl[i].id].readJobs == []
    ensures Inv(CloseRead(s, i))
    ensures CloseRead(s, i).submitted == s.submitted && CloseRead(s, i).log == s.log
  {
    hide Inv, CacheInv, EditBlocks, MaybeFree;
    ReleaseKeeps(s, i);
    var r := Release(s, i);
    if s.fl[i].kind.next.Some? {
      ReissueKeeps(r, i);
    } else {
      QuitKeeps(r, i);
      if s.fl[i].blocks == [] { FreeKeeps(Quit(r, i), s.fl[i].id); }
    }
  }

  // --------------------------------------------------------------- insert_blocks

  /** insert_blocks with blocks_inc_refcount, for one block of a reading flight. */
  ghost function InsertHeld(s: State, i: nat, k: nat, buf: Buf): State
    requires i < |s.fl| && CanInsert(s.c, s.fl[i].id, k, buf)
  {
    var f := s.fl[i];
    InsertOneLemma(s.c, f.id, k, buf, true);
    var d := InsertOne(s.c, f.id, k, buf, true);
    s.(c := d, fl := s.fl[i := f.(blocks := f.blocks + [k], bufs := f.bufs + [d.pieces[f.id].blocks[k].buf])])
  }

  lemma InsertHeldLocal(p: Piece, q: Piece, fl: seq<Flight>, i: nat, k: nat, buf: Buf, log: seq<Event>, hungAt: map<nat, nat>,
                        blockSize: int)
    requires i < |fl| && fl[i].kind.Serving? && k !in fl[i].blocks && k < |p.blocks| && buf.Buf?
    requires Local(p, fl[i].id, fl, log, hungAt, blockSize) && PieceOk(p, blockSize)
    requires q == p.(blocks := q.blocks, numBlocks := q.numBlocks, pinned := q.pinned, refcount := q.refcount)
    requires q.blocks == p.blocks[k := Inserted(p.blocks[k], buf, true)]
    ensures Local(q, fl[i].id, fl[i := fl[i].(blocks := fl[i].blocks + [k], bufs := fl[i].bufs + [q.blocks[k].buf])], log, hungAt, blockSize)
  {
    hide WroteSince, Loads, Holds;
    var f := fl[i];
    var g := f.(blocks := f.blocks + [k], bufs := f.bufs + [q.blocks[k].buf]);
    var gl := fl[i := g];
    assert BlockOk(p.blocks[k]);
    forall x | 0 <= x < |q.blocks| ensures Matches(q, x, Loads(gl, f.id, x)) {
      LoadsReplace(fl, i, g, f.id, x);
      assert Matches(p, x, Loads(fl, f.id, x));
    }
    forall a | 0 <= a < |gl| && gl[a].id == f.id ensures FlightOk(gl[a], q, log, hungAt, blockSize) {
      assert FlightOk(fl[a], p, log, hungAt, blockSize);
      HoldsMore(fl[a], p, q);
      if a == i { HoldsSnoc(f, q, k); }
    }
  }

  lemma HoldsSnoc(f: Flight, p: Piece, k: nat)
    requires Holds(f, p) && k !in f.blocks && k < |p.blocks| && p.blocks[k].buf.Buf?
    ensures Holds(f.(blocks := f.blocks + [k], bufs := f.bufs + [p.blocks[k].buf]), p)
  {}

  lemma InsertHeldKeeps(s: State, i: nat, k: nat, buf: Buf)
    requires Inv(s) && i < |s.fl| && s.fl[i].kind.Serving? && CanInsert(s.c, s.fl[i].id, k, buf) && k !in s.fl[i].blocks
    ensures Inv(InsertHeld(s, i, k, buf))
  {
    hide CacheInv, PieceOk, Local, LogOk, Ledger, OthersShrink, InsertOne, Outside, FlightOk;
    var f := s.fl[i];
    InsertOneLemma(s.c, f.id, k, buf, true);
    PieceFacts(s.c, f.id);
    ReaderFacts(s, i);
    var t := InsertHeld(s, i, k, buf);
    OthersSame(s.c, t.c, f.id);
    InsertHeldLocal(s.c.pieces[f.id], t.c.pieces[f.id], s.fl, i, k, buf, s.log, s.hungAt, s.c.blockSize);
    Continues(s, t.c, i, t.fl[i]);
  }

  /** The buffers still to be inserted, at block `k` and on. */
  ghost predicate CanInsertAll(s: State, i: nat, k: nat, bufs: seq<Buf>) {
    && CacheInv(s.c) && i < |s.fl| && s.fl[i].kind.Serving? && s.fl[i].id in s.c.pieces
    && k + |bufs| <= |s.c.pieces[s.fl[i].id].blocks| && !IsGhost(s.c.pieces[s.fl[i].id].cacheState)
    && (forall x :: 0 <= x < |bufs| ==> bufs[x].Buf? && Outside(s.c, bufs[x].addr))
    && (forall x, y :: 0 <= x < y < |bufs| ==> bufs[x].addr != bufs[y].addr)
    && (forall x :: x in s.fl[i].blocks ==> x < k)
  }

  lemma InsertHeldNext(s: State, i: nat, k: nat, bufs: seq<Buf>)
    requires CanInsertAll(s, i, k, bufs) && bufs != []
    ensures CanInsert(s.c, s.fl[i].id, k, bufs[0]) && k !in s.fl[i].blocks
    ensures CanInsertAll(InsertHeld(s, i, k, bufs[0]), i, k + 1, bufs[1..])
    ensures SameButBlocks(s, InsertHeld(s, i, k, bufs[0]), i)
    ensures InsertHeld(s, i, k, bufs[0]).c.pieces[s.fl[i].id].blocks[k] == Inserted(s.c.pieces[s.fl[i].id].blocks[k], bufs[0], true)
    ensures forall x :: 0 <= x < |s.c.pieces[s.fl[i].id].blocks| && x != k ==>
              InsertHeld(s, i, k, bufs[0]).c.pieces[s.fl[i].id].blocks[x] == s.c.pieces[s.fl[i].id].blocks[x]
  {
    hide CacheInv, InsertOne, Outside;
    var f := s.fl[i];
    InsertOneLemma(s.c, f.id, k, bufs[0], true);
    var t := InsertHeld(s, i, k, bufs[0]);
    forall x | 0 <= x < |bufs[1..]| ensures bufs[1..][x].Buf? && Outside(t.c, bufs[1..][x].addr) {
      InsertOneOutside(s.c, f.id, k, bufs[0], true, bufs[x + 1].addr);
    }
  }

  /** The reading flight got more blocks, and its piece more buffers. */
  ghost predicate SameButBlocks(s: State, t: State, i: nat) {
    && i < |s.fl| && |t.fl| == |s.fl| && t.fl == s.fl[i := t.fl[i]]
    && t.fl[i] == s.fl[i].(blocks := t.fl[i].blocks, bufs := t.fl[i].bufs) && |t.fl[i].blocks| >= |s.fl[i].blocks|
    && t == s.(c := t.c, fl := t.fl) && t.c.clock == s.c.clock && t.c.blockSize == s.c.blockSize
    && s.fl[i].id in s.c.pieces && s.fl[i].id in t.c.pieces
    && |t.c.pieces[s.fl[i].id].blocks| == |s.c.pieces[s.fl[i].id].blocks|
    && t.c.pieces[s.fl[i].id].readJobs == s.c.pieces[s.fl[i].id].readJobs
  }

  ghost function InsertAll(s: State, i: nat, k: nat, bufs: seq<Buf>): State
    requires CanInsertAll(s, i, k, bufs)
    decreases |bufs|
  {
    if bufs == [] then s else
      InsertHeldNext(s, i, k, bufs);
      InsertAll(InsertHeld(s, i, k, bufs[0]), i, k + 1, bufs[1..])
  }

  /** From block `first` on each buffer read is in an empty slot, or the block has the buffer
      it had; the section holds a reference to each of these blocks. Others did not change. */
  ghost predicate StoredBlocks(bs: seq<Block>, ds: seq<Block>, first: int, bufs: seq<Buf>) {
    && |ds| == |bs|
    && (forall x :: 0 <= x < |ds| && first <= x < first + |bufs| ==>
          ds[x].buf.Buf? && ds[x] == if bs[x].buf.Null? then Block(bufs[x - first], 1, false, false) else bs[x].(refcount := bs[x].refcount + 1))
    && (forall x :: 0 <= x < |ds| && !(first <= x < first + |bufs|) ==> ds[x] == bs[x])
  }

  lemma StoredMore(bs: seq<Block>, cs: seq<Block>, ds: seq<Block>, k: nat, bufs: seq<Buf>)
    requires bufs != [] && k < |bs| && bufs[0].Buf? && cs == bs[k := Inserted(bs[k], bufs[0], true)]
    requires StoredBlocks(cs, ds, k + 1, bufs[1..])
    ensures StoredBlocks(bs, ds, k, bufs)
  {
    forall x | 0 <= x < |ds| && k <= x < k + |bufs|
      ensures ds[x].buf.Buf? && ds[x] == if bs[x].buf.Null? then Block(bufs[x - k], 1, false, false) else bs[x].(refcount := bs[x].refcount + 1)
    {
      if x > k { assert bufs[x - k] == bufs[1..][x - (k + 1)] && cs[x] == bs[x]; }
    }
  }

  lemma {:induction false} InsertAllStored(s: State, i: nat, k: nat, bufs: seq<Buf>)
    requires CanInsertAll(s, i, k, bufs)
    ensures var t := InsertAll(s, i, k, bufs); var id := s.fl[i].id;
      id in t.c.pieces && StoredBlocks(s.c.pieces[id].blocks, t.c.pieces[id].blocks, k, bufs)
    decreases |bufs|
  {
    hide CacheInv, Outside, StoredBlocks, Inserted, InsertHeld;
    var id := s.fl[i].id;
    if bufs == [] {
      StoredNone(s.c.pieces[id].blocks, k);
    } else {
      InsertHeldNext(s, i, k, bufs);
      var u := InsertHeld(s, i, k, bufs[0]);
      InsertAllStored(u, i, k + 1, bufs[1..]);
      var bs, cs := s.c.pieces[id].blocks, u.c.pieces[id].blocks;
      assert cs == bs[k := Inserted(bs[k], bufs[0], true)];
      StoredMore(bs, cs, InsertAll(s, i, k, bufs).c.pieces[id].blocks, k, bufs);
    }
  }

  /** Afterwards the blocks read are in the cache; blocks outside the range are as they
      were. */
  lemma {:induction false} InsertAllKeeps(s: State, i: nat, k: nat, bufs: seq<Buf>)
    requires Inv(s) && CanInsertAll(s, i, k, bufs)
    ensures var t := InsertAll(s, i, k, bufs); var id := s.fl[i].id;
      && Inv(t) && SameButBlocks(s, t, i)
      && StoredBlocks(s.c.pieces[id].blocks, t.c.pieces[id].blocks, k, bufs)
      && |t.fl[i].blocks| == |s.fl[i].blocks| + |bufs|
    decreases |bufs|
  {
    hide Inv, CacheInv, Outside, StoredBlocks;
    InsertAllStored(s, i, k, bufs);
    if bufs != [] {
      InsertHeldNext(s, i, k, bufs);
      InsertHeldKeeps(s, i, k, bufs[0]);
      var u := InsertHeld(s, i, k, bufs[0]);
      InsertedLength(s, i, k, bufs[0]);
      hide InsertHeld, CanInsertAll;
      InsertAllKeeps(u, i, k + 1, bufs[1..]);
    }
  }

  lemma StoredNone(bs: seq<Block>, k: nat)
    ensures StoredBlocks(bs, bs, k, [])
  {}

  lemma InsertedLength(s: State, i: nat, k: nat, buf: Buf)
    requires i < |s.fl| && CanInsert(s.c, s.fl[i].id, k, buf)
    ensures |InsertHeld(s, i, k, buf).fl[i].blocks| == |s.fl[i].blocks| + 1
  {}

  // --------------------------------------------------------------------- do_read

  const INT_MAX := 0x7fff_ffff

  /** pad_job: how many blocks one disk read takes in, the read-ahead included. */
  function PadJob(j: ReadJob, blocks: nat, readAhead: nat, blockSize: int): (n: int)
    requires blockSize > 0
  {
    var inBlock := j.offset % blockSize;
    var start := j.offset / blockSize;
    var end := if inBlock > 0 && readAhead > blockSize - inBlock then start + 2 else start + 1;
    var top := if start + readAhead > end then start + readAhead else end;
    (if readAhead == INT_MAX || top > blocks then blocks else top) - start
  }

  /** The read stays inside the piece. It covers the job's own blocks exactly when the
      job needs only one, or the read-ahead setting is at least two blocks. */
  lemma PadCovers(j: ReadJob, blocks: nat, readAhead: nat, blockSize: int)
    requires blockSize > 0 && JobFits(j, j.piece, blocks, blockSize)
    ensures var n := PadJob(j, blocks, readAhead, blockSize);
      && 1 <= n && FirstBlock(j, blockSize) + n <= blocks
      && (BlocksToRead(j, blockSize) <= n <==> BlocksToRead(j, blockSize) == 1 || readAhead >= 2)
  {}

  /** One block without read-ahead, else as many as the setting says and the piece has; the
      largest setting stands for the rest of the piece. */
  lemma PadExactly(j: ReadJob, blocks: nat, readAhead: nat, blockSize: int)
    requires blockSize > 0 && JobFits(j, j.piece, blocks, blockSize)
    ensures var n, rest := PadJob(j, blocks, readAhead, blockSize), blocks - j.offset / blockSize;
      n == if readAhead < 2 then 1 else if readAhead == INT_MAX || readAhead > rest then rest else readAhead
  {}

  /** do_read takes the mutex again. */
  ghost function Arrived(s: State, i: nat): State
    requires i < |s.fl| && s.fl[i].kind.Reading? && s.fl[i].id in s.c.pieces
  {
    Moved(s, i, Serving(Some(s.fl[i].kind.job)), s.c.pieces[s.fl[i].id].readJobs, multiset{}, multiset{})
  }

  lemma ArrivedKeeps(s: State, i: nat)
    requires Inv(s) && i < |s.fl| && s.fl[i].kind.Reading? && s.fl[i].id in s.c.pieces
    ensures Inv(Arrived(s, i)) && Arrived(s, i).c == s.c
    ensures s.fl[i].blocks == [] && JobFits(s.fl[i].kind.job, s.fl[i].id, |s.c.pieces[s.fl[i].id].blocks|, s.c.blockSize)
  {
    hide Inv, CacheInv, JobFits, ReadsOk, HashOk;
    var f := s.fl[i];
    var q := s.c.pieces[f.id];
    ReaderFacts(s, i);
    ReadsFacts(s, f.id);
    var kind := Serving(Some(f.kind.job));
    ReaderKind(f, q, q.(readJobs := q.readJobs), kind, s.log, s.hungAt, s.c.blockSize);
    assert s.c.pieces[f.id := q.(readJobs := q.readJobs)] == s.c.pieces;
    hide FlightOk;
    MovedKeeps(s, i, kind, q.readJobs, multiset{}, multiset{});
  }

  /** The flight's own job ends, with or without success. */
  ghost function OwnEnds(s: State, i: nat, ok: bool): State
    requires i < |s.fl| && s.fl[i].kind.Serving? && s.fl[i].kind.next.Some? && s.fl[i].id in s.c.pieces
  {
    var j := s.fl[i].kind.next.value;
    Moved(s, i, Serving(None), s.c.pieces[s.fl[i].id].readJobs, if ok then multiset{j} else multiset{}, if ok then multiset{} else multiset{j})
  }

  lemma OwnEndsKeeps(s: State, i: nat, ok: bool)
    requires Inv(s) && i < |s.fl| && s.fl[i].kind.Serving? && s.fl[i].kind.next.Some? && s.fl[i].id in s.c.pieces
    ensures Inv(OwnEnds(s, i, ok)) && OwnEnds(s, i, ok).c == s.c
  {
    hide Inv, CacheInv, JobFits, ReadsOk, HashOk;
    var f := s.fl[i];
    var q := s.c.pieces[f.id];
    ReaderFacts(s, i);
    ReadsFacts(s, f.id);
    ReaderKind(f, q, q.(readJobs := q.readJobs), Serving(None), s.log, s.hungAt, s.c.blockSize);
    assert s.c.pieces[f.id := q.(readJobs := q.readJobs)] == s.c.pieces;
    hide FlightOk;
    var j := f.kind.next.value;
    MovedKeeps(s, i, Serving(None), q.readJobs, if ok then multiset{j} else multiset{}, if ok then multiset{} else multiset{j});
  }

  /** What the section does with the queue, and its end. */
  ghost function Dispatch(s: State, i: nat, abort: bool, now: int): State
    requires Inv(s) && i < |s.fl| && s.fl[i].kind == Serving(None) && s.fl[i].id in s.c.pieces && now >= s.c.clock
  {
    if abort then
      FailQueuedKeeps(s, i);
      CloseRead(FailQueued(s, i), i)
    else
      ServeAllKeeps(s, i, |s.c.pieces[s.fl[i].id].readJobs|, now);
      CloseRead(ServeAll(s, i, |s.c.pieces[s.fl[i].id].readJobs|, now), i)
  }

  lemma DispatchKeeps(s: State, i: nat, abort: bool, now: int)
    requires Inv(s) && i < |s.fl| && s.fl[i].kind == Serving(None) && s.fl[i].id in s.c.pieces && now >= s.c.clock
    ensures Inv(Dispatch(s, i, abort, now))
    ensures Dispatch(s, i, abort, now).submitted == s.submitted && Dispatch(s, i, abort, now).log == s.log
  {
    hide Inv, CloseRead, ServeAll;
    if abort {
      FailQueuedKeeps(s, i);
      CloseReadKeeps(FailQueued(s, i), i);
    } else {
      var n := |s.c.pieces[s.fl[i].id].readJobs|;
      ServeAllKeeps(s, i, n, now);
      CloseReadKeeps(ServeAll(s, i, n, now), i);
    }
  }

  ghost predicate CanReadDone(s: State, i: nat, readAhead: nat, bufs: seq<Buf>, now: int) {
    && i < |s.fl| && s.fl[i].kind.Reading? && s.fl[i].id in s.c.pieces && now >= s.c.clock && s.c.blockSize > 0
    && |bufs| == PadJob(s.fl[i].kind.job, |s.c.pieces[s.fl[i].id].blocks|, readAhead, s.c.blockSize)
    && (forall x :: 0 <= x < |bufs| ==> bufs[x].Buf? && Outside(s.c, bufs[x].addr))
    && (forall x, y :: 0 <= x < y < |bufs| ==> bufs[x].addr != bufs[y].addr)
  }

  /** The section may insert the blocks it read. */
  ghost predicate CanStore(a: State, i: nat, job: ReadJob, bufs: seq<Buf>, now: int) {
    && i < |a.fl| && a.fl[i].id in a.c.pieces && |a.c.lru| == NUM_LRUS && 0 <= a.c.pieces[a.fl[i].id].cacheState < NUM_LRUS
    && a.c.blockSize > 0
    && CanInsertAll(a.(c := CacheHit(a.c, a.fl[i].id, job.requester, job.volatileRead, now)), i, FirstBlock(job, a.c.blockSize), bufs)
  }

  /** The blocks that were read are in the cache, and the section holds them. */
  ghost function Stored(a: State, i: nat, job: ReadJob, bufs: seq<Buf>, now: int): State
    requires CanStore(a, i, job, bufs, now)
  {
    InsertAll(a.(c := CacheHit(a.c, a.fl[i].id, job.requester, job.volatileRead, now)), i, FirstBlock(job, a.c.blockSize), bufs)
  }

  /** do_read after its disk read, up to its own job: `a` is the state with the mutex
      just taken. */
  ghost predicate ReadyToStore(s: State, a: State, i: nat, readAhead: nat, bufs: seq<Buf>, now: int) {
    && CanReadDone(s, i, readAhead, bufs, now) && a == Arrived(s, i) && a.c == s.c && s.fl[i].blocks == []
    && JobFits(s.fl[i].kind.job, s.fl[i].id, |s.c.pieces[s.fl[i].id].blocks|, s.c.blockSize)
  }

  lemma StoreEnabled(s: State, a: State, i: nat, readAhead: nat, bufs: seq<Buf>, now: int)
    requires Inv(a) && ReadyToStore(s, a, i, readAhead, bufs, now)
    ensures CanStore(a, i, s.fl[i].kind.job, bufs, now)
    ensures Inv(a.(c := CacheHit(a.c, a.fl[i].id, s.fl[i].kind.job.requester, s.fl[i].kind.job.volatileRead, now)))
  {
    hide Inv, CacheInv, CacheHit, PadJob, Addrs, JobFits;
    var id := a.fl[i].id;
    var job := s.fl[i].kind.job;
    HitKeeps(a, id, job.requester, job.volatileRead, now);
    CacheHitEffect(a.c, id, job.requester, job.volatileRead, now);
    HitBlockSize(a.c, id, job.requester, job.volatileRead, now);
    OwnFits(job, id, |a.c.pieces[id].blocks|, a.c.blockSize);
    PadCovers(job, |a.c.pieces[id].blocks|, readAhead, a.c.blockSize);
    InInv(a.(c := CacheHit(a.c, id, job.requester, job.volatileRead, now)));
  }

  /** The piece after the insertion: the blocks read are there, the others are as they
      were, and the section still has its own job to serve. */
  ghost predicate IsStored(s: State, t: State, i: nat, bufs: seq<Buf>, now: int) {
    && i < |s.fl| && i < |t.fl| && s.fl[i].kind.Reading? && t.fl[i].kind == Serving(Some(s.fl[i].kind.job)) && t.fl[i].id == s.fl[i].id
    && s.fl[i].id in s.c.pieces && s.fl[i].id in t.c.pieces && s.c.blockSize > 0
    && t.c.clock <= now && t.submitted == s.submitted && t.log == s.log && t.c.blockSize == s.c.blockSize && |t.fl[i].blocks| == |bufs|
    && StoredBlocks(s.c.pieces[s.fl[i].id].blocks, t.c.pieces[s.fl[i].id].blocks, FirstBlock(s.fl[i].kind.job, s.c.blockSize), bufs)
    && JobFits(s.fl[i].kind.job, s.fl[i].id, |t.c.pieces[s.fl[i].id].blocks|, t.c.blockSize)
  }

  lemma StoredKeeps(s: State, a: State, i: nat, readAhead: nat, bufs: seq<Buf>, now: int)
    requires Inv(a) && ReadyToStore(s, a, i, readAhead, bufs, now)
    ensures CanStore(a, i, s.fl[i].kind.job, bufs, now)
    ensures Inv(Stored(a, i, s.fl[i].kind.job, bufs, now)) && IsStored(s, Stored(a, i, s.fl[i].kind.job, bufs, now), i, bufs, now)
  {
    hide Inv, CacheInv, PadJob, JobFits, Outside, CacheHit, CanInsertAll, StoredBlocks;
    StoreEnabled(s, a, i, readAhead, bufs, now);
    var job := s.fl[i].kind.job;
    var id := s.fl[i].id;
    CacheHitEffect(a.c, id, job.requester, job.volatileRead, now);
    HitBlockSize(a.c, id, job.requester, job.volatileRead, now);
    InsertAllKeeps(a.(c := CacheHit(a.c, id, job.requester, job.volatileRead, now)), i, FirstBlock(job, a.c.blockSize), bufs);
    hide InsertAll;
  }

  /** The section's own job is read from the cache and completes. */
  ghost predicate CanOwn(s: State, i: nat, now: int) {
    && i < |s.fl| && s.fl[i].kind.Serving? && s.fl[i].kind.next.Some? && s.fl[i].id in s.c.pieces
    && s.c.pieces[s.fl[i].id].outstandingRead && s.fl[i].kind.next.value.piece == s.fl[i].id
    && CanTry(s.c, s.fl[i].kind.next.value, now)
  }

  ghost function OwnServed(s: State, i: nat, now: int): State
    requires CanOwn(s, i, now)
  {
    TriedHeld(s, s.fl[i].kind.next.value, now);
    OwnEnds(Tried(s, s.fl[i].kind.next.value, now), i, true)
  }

  lemma OwnServedKeeps(s: State, i: nat, now: int)
    requires Inv(s) && i < |s.fl| && s.fl[i].kind.Serving? && s.fl[i].kind.next.Some? && now >= s.c.clock
    ensures CanOwn(s, i, now)
    ensures var t := OwnServed(s, i, now);
      Inv(t) && i < |t.fl| && t.fl[i] == s.fl[i].(kind := Serving(None)) && t.fl[i].id in t.c.pieces && t.c.clock <= now && t.submitted == s.submitted && t.log == s.log
  {
    hide Inv, CacheInv, TryRead, Tried, FlightOk, PieceOk, HashOk, JobFits;
    var j := s.fl[i].kind.next.value;
    OwnEnabled(s, i, now);
    TriedHeld(s, j, now);
    TriedKeeps(s, j, now);
    var u := Tried(s, j, now);
    assert u.fl[i] == s.fl[i];
    OwnEndsKeeps(u, i, true);
  }

  lemma OwnEnabled(s: State, i: nat, now: int)
    requires Inv(s) && i < |s.fl| && s.fl[i].kind.Serving? && s.fl[i].kind.next.Some? && now >= s.c.clock
    ensures CanOwn(s, i, now)
  {
    hide Inv, CacheInv, Holds, WroteSince, PieceOk, HashOk;
    ReaderFacts(s, i);
    InvFacts(s, s.fl[i].id);
  }

  ghost function ReadDone(s: State, i: nat, readAhead: nat, bufs: seq<Buf>, abort: bool, now: int): State
    requires Inv(s) && CanReadDone(s, i, readAhead, bufs, now)
  {
    hide Inv, Stored, OwnServed, PadJob, Outside;
    ArrivedKeeps(s, i);
    var a := Arrived(s, i);
    StoredKeeps(s, a, i, readAhead, bufs, now);
    var t := Stored(a, i, s.fl[i].kind.job, bufs, now);
    OwnServedKeeps(t, i, now);
    Dispatch(OwnServed(t, i, now), i, abort, now)
  }

  lemma ReadDoneKeeps(s: State, i: nat, readAhead: nat, bufs: seq<Buf>, abort: bool, now: int)
    requires Inv(s) && CanReadDone(s, i, readAhead, bufs, now)
    ensures Inv(ReadDone(s, i, readAhead, bufs, abort, now))
    ensures ReadDone(s, i, readAhead, bufs, abort, now).submitted == s.submitted && ReadDone(s, i, readAhead, bufs, abort, now).log == s.log
  {
    hide Inv, Stored, OwnServed, PadJob, Outside, Dispatch, CanStore, CanOwn;
    ArrivedKeeps(s, i);
    var a := Arrived(s, i);
    StoredKeeps(s, a, i, readAhead, bufs, now);
    var t := Stored(a, i, s.fl[i].kind.job, bufs, now);
    OwnServedKeeps(t, i, now);
    DispatchKeeps(OwnServed(t, i, now), i, abort, now);
  }

  /** After its disk read a job is served from the cache, as do_read asserts, exactly
      when its second block, if it needs one, was read too or was there already. */
  lemma OwnReadServed(s: State, i: nat, readAhead: nat, bufs: seq<Buf>, now: int)
    requires Inv(s) && CanReadDone(s, i, readAhead, bufs, now)
    ensures var job := s.fl[i].kind.job; var a := Arrived(s, i); var b := FirstBlock(job, s.c.blockSize);
      && CanStore(a, i, job, bufs, now) && CanTry(Stored(a, i, job, bufs, now).c, job, now)
      && 0 <= b && b + BlocksToRead(job, s.c.blockSize) <= |s.c.pieces[s.fl[i].id].blocks|
      && (TryRead(Stored(a, i, job, bufs, now).c, job, now).1.Miss? <==>
            BlocksToRead(job, s.c.blockSize) == 2 && readAhead < 2 && s.c.pieces[s.fl[i].id].blocks[b + 1].buf.Null?)
  {
    hide Inv, CacheInv, Stored, Outside, CanInsertAll, JobFits, PadJob, CacheHit, TryRead, StoredBlocks, FirstBlock, BlocksToRead;
    ArrivedKeeps(s, i);
    var a := Arrived(s, i);
    var job := s.fl[i].kind.job;
    StoredKeeps(s, a, i, readAhead, bufs, now);
    var t := Stored(a, i, job, bufs, now);
    OwnEnabled(t, i, now);
    TryOutcome(t.c, job, now);
    ServedIff(job, s.fl[i].id, s.c.pieces[s.fl[i].id].blocks, t.c.pieces[s.fl[i].id].blocks, readAhead, bufs, s.c.blockSize);
  }

  lemma ServedIff(j: ReadJob, id: PieceId, bs: seq<Block>, ds: seq<Block>, readAhead: nat, bufs: seq<Buf>, blockSize: int)
    requires blockSize > 0 && JobFits(j, id, |bs|, blockSize)
    requires PadJob(j, |bs|, readAhead, blockSize) == |bufs|
    requires StoredBlocks(bs, ds, FirstBlock(j, blockSize), bufs)
    ensures var b := FirstBlock(j, blockSize);
      && 0 <= b && b + BlocksToRead(j, blockSize) <= |bs| == |ds|
      && (ds[b].buf.Null? || (BlocksToRead(j, blockSize) == 2 && ds[b + 1].buf.Null?) <==>
            BlocksToRead(j, blockSize) == 2 && readAhead < 2 && bs[b + 1].buf.Null?)
  {
    AlignedOne(j, blockSize);
    OwnFits(j, id, |bs|, blockSize);
    FirstInPiece(j, |bs|, blockSize);
    PadCovers(j, |bs|, readAhead, blockSize);
    if BlocksToRead(j, blockSize) == 2 && readAhead < 2 { PadOne(j, |bs|, readAhead, blockSize); }
    hide PadJob, BlocksToRead, FirstBlock;
  }

  lemma PadOne(j: ReadJob, blocks: nat, readAhead: nat, blockSize: int)
    requires blockSize > 0 && JobFits(j, j.piece, blocks, blockSize) && BlocksToRead(j, blockSize) == 2 && readAhead < 2
    ensures PadJob(j, blocks, readAhead, blockSize) == 1
  {}

  /** A read misses exactly when one of the blocks it needs is not cached. */
  lemma TryOutcome(c: Cache, j: ReadJob, now: int)
    requires CanTry(c, j, now) && j.piece in c.pieces
    ensures var b := FirstBlock(j, c.blockSize); var bs := c.pieces[j.piece].blocks;
      && 0 <= b && b + BlocksToRead(j, c.blockSize) <= |bs|
      && (TryRead(c, j, now).1.Miss? <==> bs[b].buf.Null? || (BlocksToRead(j, c.blockSize) == 2 && bs[b + 1].buf.Null?))
  {
    hide CacheInv, CacheHit, JobFits;
    CacheHitKeeps(c, j.piece, j.requester, j.volatileRead, now);
    CacheHitEffect(c, j.piece, j.requester, j.volatileRead, now);
    HitBlockSize(c, j.piece, j.requester, j.volatileRead, now);
    FirstInPiece(j, |c.pieces[j.piece].blocks|, c.blockSize);
    AlignedOne(j, c.blockSize);
  }

  lemma AlignedOne(j: ReadJob, blockSize: int)
    requires blockSize > 0
    ensures BlocksToRead(j, blockSize) == 1 || BlocksToRead(j, blockSize) == 2
  {}

  /** The disk read failed: the job and every queued one fail. */
  ghost function ReadFailed(s: State, i: nat): State
    requires Inv(s) && i < |s.fl| && s.fl[i].kind.Reading? && s.fl[i].id in s.c.pieces
  {
    hide Inv;
    ArrivedKeeps(s, i);
    OwnEndsKeeps(Arrived(s, i), i, false);
    Dispatch(OwnEnds(Arrived(s, i), i, false), i, true, s.c.clock)
  }

  lemma ReadFailedKeeps(s: State, i: nat)
    requires Inv(s) && i < |s.fl| && s.fl[i].kind.Reading? && s.fl[i].id in s.c.pieces
    ensures Inv(ReadFailed(s, i))
    ensures ReadFailed(s, i).submitted == s.submitted && ReadFailed(s, i).log == s.log
  {
    hide Inv, Dispatch;
    ArrivedKeeps(s, i);
    OwnEndsKeeps(Arrived(s, i), i, false);
    DispatchKeeps(OwnEnds(Arrived(s, i), i, false), i, true, s.c.clock);
  }

  /** No buffers for the read-ahead: the job is read past the cache, and only then the
      queue is looked at. */
  ghost function ReadUncached(s: State, i: nat, ok: bool, abort: bool, now: int): State
    requires Inv(s) && i < |s.fl| && s.fl[i].kind.Reading? && s.fl[i].id in s.c.pieces && now >= s.c.clock
  {
    hide Inv;
    ArrivedKeeps(s, i);
    OwnEndsKeeps(Arrived(s, i), i, ok);
    Dispatch(OwnEnds(Arrived(s, i), i, ok), i, abort, now)
  }

  lemma ReadUncachedKeeps(s: State, i: nat, ok: bool, abort: bool, now: int)
    requires Inv(s) && i < |s.fl| && s.fl[i].kind.Reading? && s.fl[i].id in s.c.pieces && now >= s.c.clock
    ensures Inv(ReadUncached(s, i, ok, abort, now))
    ensures ReadUncached(s, i, ok, abort, now).submitted == s.submitted && ReadUncached(s, i, ok, abort, now).log == s.log
  {
    hide Inv, Dispatch;
    ArrivedKeeps(s, i);
    OwnEndsKeeps(Arrived(s, i), i, ok);
    DispatchKeeps(OwnEnds(Arrived(s, i), i, ok), i, abort, now);
  }

  // ----------------------------------------------------------- prep_read_job_impl

  /** The job asks for blocks of a piece of `size` bytes; it was not seen before. */
  ghost predicate CanPrep(s: State, j: ReadJob, size: int, now: int) {
    && j !in s.submitted && size > 0 && now >= s.c.clock && s.c.blockSize > 0
    && (j.piece in s.c.pieces ==> s.c.pieces[j.piece].size == size)
    && JobFits(j, j.piece, BlocksFor(size, s.c.blockSize), s.c.blockSize)
  }

  /** The piece has as many blocks as its size asks for. */
  lemma SizeBlocks(p: Piece, blockSize: int)
    requires PieceOk(p, blockSize) && blockSize > 0 && p.size > 0
    ensures |p.blocks| == BlocksFor(p.size, blockSize)
  {
    hide Tally;
    BlocksForLemma(p.size, blockSize);
    var m, n := BlocksFor(p.size, blockSize), |p.blocks|;
    if m <= n - 1 { MulMono(m, n - 1, blockSize); }
    if n <= m - 1 { MulMono(n, m - 1, blockSize); }
  }

  lemma PrepCanTry(s: State, j: ReadJob, size: int, now: int)
    requires Inv(s) && CanPrep(s, j, size, now)
    ensures CanTry(s.c, j, now)
  {
    hide Inv, CacheInv, PieceOk, BlocksFor, HashOk;
    InInv(s);
    CacheFacts(s.c);
    if j.piece in s.c.pieces {
      InvFacts(s, j.piece);
      SizeBlocks(s.c.pieces[j.piece], s.c.blockSize);
    }
  }

  /** What try_read leaves of the piece in general. */
  lemma TriedFacts(s: State, j: ReadJob, now: int)
    requires CanTry(s.c, j, now)
    ensures var t := Tried(s, j, now);
      && t.c.clock <= now && t.c.blockSize == s.c.blockSize && t.submitted == s.submitted && t.log == s.log && t.completed == s.completed
      && (j.piece in t.c.pieces ==> j.piece in s.c.pieces && t.c.pieces[j.piece].size == s.c.pieces[j.piece].size)
  {
    hide CacheInv, CacheHit, EditAll, Put, Tally, JobFits, Editable, MaybeFree;
    var id := j.piece;
    if id in s.c.pieces {
      CacheHitKeeps(s.c, id, j.requester, j.volatileRead, now);
      CacheHitEffect(s.c, id, j.requester, j.volatileRead, now);
      HitBlockSize(s.c, id, j.requester, j.volatileRead, now);
      var c1 := CacheHit(s.c, id, j.requester, j.volatileRead, now);
      FirstInPiece(j, |c1.pieces[id].blocks|, c1.blockSize);
      var b := FirstBlock(j, c1.blockSize);
      MaybeFreeLemma(c1, id);
      hide Shrunk, Droppable, Idle;
      if c1.pieces[id].blocks[b].buf.Buf? {
        EditableOne(c1.pieces[id], b, IncRef);
        EditKeeps(c1, id, [b], IncRef);
        EditEffect(c1, id, [b], IncRef);
      }
    }
  }

  /** A miss: the piece is allocated, and the job waits for the read in progress or
      becomes the read itself. */
  ghost predicate CanEnqueue(u: State, j: ReadJob) {
    && j.piece in u.c.pieces
    && JobFits(j, j.piece, |u.c.pieces[j.piece].blocks|, u.c.blockSize)
    && !IsGhost(u.c.pieces[j.piece].cacheState)
  }

  ghost function Enqueued(u: State, j: ReadJob): State
    requires j.piece in u.c.pieces
  {
    var p := u.c.pieces[j.piece];
    if p.outstandingRead then
      u.(c := SetPiece(u.c, j.piece, p.(readJobs := p.readJobs + [j])), submitted := u.submitted + multiset{j})
    else
      u.(c := SetPiece(u.c, j.piece, p.(outstandingRead := true)), fl := u.fl + [Flight(Reading(j), j.piece, [], [])],
         submitted := u.submitted + multiset{j})
  }

  lemma EnqueuedKeeps(u: State, j: ReadJob)
    requires Inv(u) && CanEnqueue(u, j)
    ensures Inv(Enqueued(u, j))
  {
    hide CacheInv, Local, LogOk, Ledger, OthersShrink, SameElsewhere, Issued, FlightOk, PieceOk, JobFits, Carries;
    var id := j.piece;
    var p := u.c.pieces[id];
    var t := Enqueued(u, j);
    ReadsFacts(u, id);
    QueueKeepsCache(u.c, id, t.c.pieces[id]);
    if p.outstandingRead {
      NoFlightChange(u.fl, id);
      QueueLocal(p, t.c.pieces[id], id, u.fl, u.log, u.hungAt, u.c.blockSize);
      JobMoves(u, t, id);
    } else {
      var f := t.fl[|u.fl|];
      ElsewhereSnoc(u.fl, f);
      IssueLocal(p, t.c.pieces[id], j, u.fl, u.log, u.hungAt, u.c.blockSize);
      forall x: ReadJob ensures Issued(t.fl, x) == Issued(u.fl, x) + multiset{j}[x] {
        IssuedSnoc(u.fl, f, x);
        CarriesOne(j, id, x);
      }
      JobMoves(u, t, id);
    }
  }

  lemma CarriesOne(j: ReadJob, id: PieceId, x: ReadJob)
    ensures Carries(Flight(Reading(j), id, [], []), x) == multiset{j}[x]
  {}

  lemma IssueLocal(p: Piece, q: Piece, j: ReadJob, fl: seq<Flight>, log: seq<Event>, hungAt: map<nat, nat>, blockSize: int)
    requires Local(p, j.piece, fl, log, hungAt, blockSize) && !p.outstandingRead && q == p.(outstandingRead := true)
    requires JobFits(j, j.piece, |p.blocks|, blockSize)
    ensures Local(q, j.piece, fl + [Flight(Reading(j), j.piece, [], [])], log, hungAt, blockSize)
  {
    hide EditAll, WroteSince, Loads, PieceLoads, JobsOk;
    var f := Flight(Reading(j), j.piece, [], []);
    assert Editable(p, [], IncRef);
    EditAllEmpty(p, IncRef);
    HoldsNothing(f, q);
    HeldLocal(p, q, f, fl, log, hungAt, blockSize);
  }

  ghost function Prep(s: State, j: ReadJob, size: int, now: int): State
    requires Inv(s) && CanPrep(s, j, size, now)
  {
    hide Inv, CacheInv, JobFits, TryRead, Tried;
    PrepCanTry(s, j, size, now);
    TriedKeeps(s, j, now);
    TriedFacts(s, j, now);
    var u := Tried(s, j, now);
    if !TryRead(s.c, j, now).1.Miss? then
      u.(submitted := u.submitted + multiset{j}, completed := u.completed + multiset{j})
    else
      MissEnabled(u, j, size, now);
      Enqueued(u.(c := AllocatePiece(u.c, j.piece, size, j.requester, READ_LRU1, now)), j)
  }

  lemma MissEnabled(u: State, j: ReadJob, size: int, now: int)
    requires Inv(u) && size > 0 && now >= u.c.clock && u.c.blockSize > 0
    requires j.piece in u.c.pieces ==> u.c.pieces[j.piece].size == size
    requires JobFits(j, j.piece, BlocksFor(size, u.c.blockSize), u.c.blockSize)
    ensures CanAllocate(u, j.piece, size, READ_LRU1, now)
    ensures var v := u.(c := AllocatePiece(u.c, j.piece, size, j.requester, READ_LRU1, now)); Inv(v) && CanEnqueue(v, j)
  {
    hide Inv, CacheInv, PieceOk, HashOk, BlocksFor, NewPiece, AllocatePiece, JobFits;
    InInv(u);
    CacheFacts(u.c);
    if j.piece in u.c.pieces {
      InvFacts(u, j.piece);
      SizeBlocks(u.c.pieces[j.piece], u.c.blockSize);
    }
    AllocateEffect(u.c, j.piece, size, j.requester, READ_LRU1, now);
    AllocatePieceKeeps(u, j.piece, size, j.requester, READ_LRU1, now);
    AllocatedLocal(u, j.piece, size, j.requester, READ_LRU1, now);
    NewBlocks(size, u.c.blockSize, j.requester, READ_LRU1, now);
  }

  lemma PrepKeeps(s: State, j: ReadJob, size: int, now: int)
    requires Inv(s) && CanPrep(s, j, size, now)
    ensures Inv(Prep(s, j, size, now))
    ensures Prep(s, j, size, now).submitted == s.submitted + multiset{j} && Prep(s, j, size, now).log == s.log
  {
    hide Inv, CacheInv, JobFits, TryRead, Tried, AllocatePiece, CanEnqueue;
    PrepCanTry(s, j, size, now);
    TriedKeeps(s, j, now);
    TriedFacts(s, j, now);
    var u := Tried(s, j, now);
    if !TryRead(s.c, j, now).1.Miss? {
      BooksKeep(u, j, u.submitted + multiset{j}, u.completed + multiset{j});
    } else {
      MissEnabled(u, j, size, now);
      EnqueuedKeeps(u.(c := AllocatePiece(u.c, j.piece, size, j.requester, READ_LRU1, now)), j);
    }
  }

  // ---------------------------------------------------------------- reclaim_block

  /** A block that was handed out by reference is given back. */
  ghost function Reclaimed(s: State, i: nat): State
    requires Inv(s) && i < |s.fl| && s.fl[i].kind.Referencing?
  {
    hide Inv, CacheInv, EditBlocks, Editable;
    ReclaimKeeps(s, i);
    var t := s.(c := EditBlocks(s.c, s.fl[i].id, s.fl[i].blocks, DecRef), fl := Drop(s.fl, i));
    InInv(t);
    t.(c := MaybeFree(t.c, s.fl[i].id))
  }

  lemma ReclaimKeeps(s: State, i: nat)
    requires Inv(s) && i < |s.fl| && s.fl[i].kind.Referencing?
    ensures s.fl[i].id in s.c.pieces && Editable(s.c.pieces[s.fl[i].id], s.fl[i].blocks, DecRef)
    ensures Inv(s.(c := EditBlocks(s.c, s.fl[i].id, s.fl[i].blocks, DecRef), fl := Drop(s.fl, i)))
    ensures s.fl[i].id in EditBlocks(s.c, s.fl[i].id, s.fl[i].blocks, DecRef).pieces
  {
    hide CacheInv, Local, LogOk, Ledger, OthersShrink, EditAll, Put, PieceOk;
    var f := s.fl[i];
    HeldEditable(s.c.pieces[f.id], s.fl, i, s.log, s.hungAt, s.c.blockSize);
    hide Editable;
    EditKeeps(s.c, f.id, f.blocks, DecRef);
    EditEffect(s.c, f.id, f.blocks, DecRef);
    var d := EditBlocks(s.c, f.id, f.blocks, DecRef);
    OthersSame(s.c, d, f.id);
    PieceFacts(s.c, f.id);
    HasBlocks(s.c.pieces[f.id], s.c.blockSize);
    GivenBack(s.c.pieces[f.id], d.pieces[f.id], s.fl, i, s.log, s.hungAt, s.c.blockSize);
    assert s.log + [] == s.log;
    Ends(s, d, i, []);
  }

  lemma GivenBack(p: Piece, q: Piece, fl: seq<Flight>, i: nat, log: seq<Event>, hungAt: map<nat, nat>, blockSize: int)
    requires i < |fl| && fl[i].kind.Referencing? && Local(p, fl[i].id, fl, log, hungAt, blockSize) && |p.blocks| > 0
    requires Editable(p, fl[i].blocks, DecRef) && q == EditAll(p, fl[i].blocks, DecRef)
    ensures Local(q, fl[i].id, Drop(fl, i), log, hungAt, blockSize)
  {
    hide EditAll, WroteSince, Loads, FlightOk, PieceLoads, JobsOk;
    EditAllLemma(p, fl[i].blocks, DecRef);
    DroppedLocal(p, q, fl, i, log, hungAt, blockSize);
  }

  lemma ReclaimedKeeps(s: State, i: nat)
    requires Inv(s) && i < |s.fl| && s.fl[i].kind.Referencing?
    ensures Inv(Reclaimed(s, i))
  {
    hide Inv, CacheInv, EditBlocks, Editable, MaybeFree;
    ReclaimKeeps(s, i);
    FreeKeeps(s.(c := EditBlocks(s.c, s.fl[i].id, s.fl[i].blocks, DecRef), fl := Drop(s.fl, i)), s.fl[i].id);
  }

  // ------------------------------------------------------- how read jobs come to an end

  lemma CloseReadBooks(s: State, i: nat)
    requires Inv(s) && i < |s.fl| && s.fl[i].kind.Serving?
    requires s.fl[i].kind.next.None? ==> s.fl[i].id in s.c.pieces && s.c.pieces[s.fl[i].id].readJobs == []
    ensures CloseRead(s, i).completed == s.completed && CloseRead(s, i).failed == s.failed
  {
    hide Inv, CacheInv, EditBlocks, MaybeFree;
    ReleaseKeeps(s, i);
  }

  /** The books of a section that ends: shutting down every queued job fails; otherwise
      none does, and exactly those complete whose blocks are all cached. */
  ghost predicate QueueEnds(s: State, t: State, id: PieceId, jobs: seq<ReadJob>, bs: seq<Block>, abort: bool) {
    && s.c.blockSize > 0
    && t.failed == s.failed + (if abort then multiset(jobs) else multiset{})
    && t.completed == s.completed + (if abort then multiset{} else multiset(Select(jobs, bs, s.c.blockSize, true)))
  }

  lemma DispatchBooks(s: State, i: nat, abort: bool, now: int)
    requires Inv(s) && i < |s.fl| && s.fl[i].kind == Serving(None) && s.fl[i].id in s.c.pieces && now >= s.c.clock && s.c.blockSize > 0
    ensures var p := s.c.pieces[s.fl[i].id]; QueueEnds(s, Dispatch(s, i, abort, now), s.fl[i].id, p.readJobs, p.blocks, abort)
  {
    hide Inv, CloseRead, ServeAll, Select, Split;
    var jobs := s.c.pieces[s.fl[i].id].readJobs;
    if abort {
      FailQueuedKeeps(s, i);
      CloseReadBooks(FailQueued(s, i), i);
    } else {
      ServeAllKeeps(s, i, |jobs|, now);
      QueueServed(s, i, |jobs|, now);
      assert jobs[..|jobs|] == jobs;
      CloseReadBooks(ServeAll(s, i, |jobs|, now), i);
    }
  }

  /** A read error fails the job that was read for and every job queued behind it. */
  lemma ReadFailedBooks(s: State, i: nat)
    requires Inv(s) && i < |s.fl| && s.fl[i].kind.Reading? && s.fl[i].id in s.c.pieces
    ensures var t := ReadFailed(s, i);
      t.completed == s.completed && t.failed == s.failed + multiset{s.fl[i].kind.job} + multiset(s.c.pieces[s.fl[i].id].readJobs)
  {
    hide Inv, Dispatch, Select;
    ArrivedKeeps(s, i);
    OwnEndsKeeps(Arrived(s, i), i, false);
    PositiveBlock(s);
    DispatchBooks(OwnEnds(Arrived(s, i), i, false), i, true, s.c.clock);
  }

  lemma PositiveBlock(s: State)
    requires Inv(s)
    ensures s.c.blockSize > 0
  {
    hide CacheInv, Local, LogOk, Ledger;
    InInv(s);
    CacheFacts(s.c);
  }

  /** A read past the cache ends its own job as the read went; the queue is served from
      the cache as it is. */
  lemma ReadUncachedBooks(s: State, i: nat, ok: bool, abort: bool, now: int)
    requires Inv(s) && i < |s.fl| && s.fl[i].kind.Reading? && s.fl[i].id in s.c.pieces && now >= s.c.clock
    ensures var t := ReadUncached(s, i, ok, abort, now); var p, own := s.c.pieces[s.fl[i].id], multiset{s.fl[i].kind.job};
      QueueEnds(s.(completed := s.completed + if ok then own else multiset{}, failed := s.failed + if ok then multiset{} else own),
                t, s.fl[i].id, p.readJobs, p.blocks, abort)
  {
    hide Inv, Dispatch, Select;
    ArrivedKeeps(s, i);
    OwnEndsKeeps(Arrived(s, i), i, ok);
    PositiveBlock(s);
    DispatchBooks(OwnEnds(Arrived(s, i), i, ok), i, abort, now);
  }

  /** A read through the cache completes its own job; the queue is served from the blocks
      that are there now. */
  lemma ReadDoneBooks(s: State, i: nat, readAhead: nat, bufs: seq<Buf>, abort: bool, now: int)
    requires Inv(s) && CanReadDone(s, i, readAhead, bufs, now)
    ensures var t := ReadDone(s, i, readAhead, bufs, abort, now); var p := s.c.pieces[s.fl[i].id]; var job := s.fl[i].kind.job;
      exists bs :: StoredBlocks(p.blocks, bs, FirstBlock(job, s.c.blockSize), bufs)
        && QueueEnds(s.(completed := s.completed + multiset{job}), t, s.fl[i].id, p.readJobs, bs, abort)
  {
    hide Inv, Stored, OwnServed, PadJob, Outside, Dispatch, CanStore, CanOwn, StoredBlocks, FirstBlock, Select;
    ArrivedKeeps(s, i);
    var a := Arrived(s, i);
    var job, id := s.fl[i].kind.job, s.fl[i].id;
    StoredKeeps(s, a, i, readAhead, bufs, now);
    StoredBooks(s, a, i, readAhead, bufs, now);
    var t := Stored(a, i, job, bufs, now);
    OwnServedKeeps(t, i, now);
    OwnServedBooks(t, i, now);
    var u := OwnServed(t, i, now);
    DispatchBooks(u, i, abort, now);
    var jobs := s.c.pieces[id].readJobs;
    SelectAlike(jobs, t.c.pieces[id].blocks, u.c.pieces[id].blocks, s.c.blockSize, true);
    assert QueueEnds(s.(completed := s.completed + multiset{job}), ReadDone(s, i, readAhead, bufs, abort, now), id, jobs, t.c.pieces[id].blocks, abort);
  }

  lemma StoredBooks(s: State, a: State, i: nat, readAhead: nat, bufs: seq<Buf>, now: int)
    requires Inv(a) && ReadyToStore(s, a, i, readAhead, bufs, now)
    ensures CanStore(a, i, s.fl[i].kind.job, bufs, now)
    ensures var t := Stored(a, i, s.fl[i].kind.job, bufs, now); var id := s.fl[i].id;
      t.completed == s.completed && t.failed == s.failed && id in t.c.pieces && t.c.pieces[id].readJobs == s.c.pieces[id].readJobs
  {
    hide Inv, CacheInv, PadJob, JobFits, Outside, CacheHit, CanInsertAll, StoredBlocks;
    StoreEnabled(s, a, i, readAhead, bufs, now);
    var job := s.fl[i].kind.job;
    var id := s.fl[i].id;
    CacheHitEffect(a.c, id, job.requester, job.volatileRead, now);
    HitBlockSize(a.c, id, job.requester, job.volatileRead, now);
    var b := a.(c := CacheHit(a.c, id, job.requester, job.volatileRead, now));
    InsertAllKeeps(b, i, FirstBlock(job, a.c.blockSize), bufs);
    InsertAllBooks(b, i, FirstBlock(job, a.c.blockSize), bufs);
    hide InsertAll;
  }

  lemma {:induction false} InsertAllBooks(s: State, i: nat, k: nat, bufs: seq<Buf>)
    requires CanInsertAll(s, i, k, bufs)
    ensures var t := InsertAll(s, i, k, bufs); t.completed == s.completed && t.failed == s.failed
    decreases |bufs|
  {
    hide CacheInv, Outside;
    if bufs != [] {
      InsertHeldNext(s, i, k, bufs);
      InsertAllBooks(InsertHeld(s, i, k, bufs[0]), i, k + 1, bufs[1..]);
    }
  }

  lemma OwnServedBooks(s: State, i: nat, now: int)
    requires CanOwn(s, i, now)
    ensures var t := OwnServed(s, i, now); var id := s.fl[i].id;
      && t.completed == s.completed + multiset{s.fl[i].kind.next.value} && t.failed == s.failed
      && id in t.c.pieces && t.c.pieces[id].readJobs == s.c.pieces[id].readJobs && t.c.blockSize == s.c.blockSize
      && SameBufs(s.c.pieces[id].blocks, t.c.pieces[id].blocks)
  {
    hide CacheInv, TryRead, CanTry;
    var j := s.fl[i].kind.next.value;
    TriedHeld(s, j, now);
    TriedBufs(s, j, now);
    TriedCache(s, j, now);
    var u := Tried(s, j, now);
    assert u.fl[i] == s.fl[i];
  }

  /** If the piece is still there, whether it is being read and its queue are as they were. */
  predicate SameQueue(c: Cache, d: Cache, id: PieceId) {
    id in d.pieces ==>
      id in c.pieces && d.pieces[id].outstandingRead == c.pieces[id].outstandingRead && d.pieces[id].readJobs == c.pieces[id].readJobs
  }

  lemma FreeQueue(c: Cache, id: PieceId)
    requires CacheInv(c) && id in c.pieces
    ensures SameQueue(c, MaybeFree(c, id), id)
  {
    hide CacheInv, MaybeFree, Shrunk, Droppable, Idle;
    MaybeFreeLemma(c, id);
  }

  lemma CopyQueue(c: Cache, j: ReadJob)
    requires CacheInv(c) && c.blockSize > 0 && j.piece in c.pieces
    requires JobFits(j, j.piece, |c.pieces[j.piece].blocks|, c.blockSize)
    ensures SameQueue(c, CopyFromPiece(c, j).0, j.piece)
  {
    hide CacheInv, MaybeFree, EditBlocks, Editable, EditAll;
    var b := FirstBlock(j, c.blockSize);
    FirstInPiece(j, |c.pieces[j.piece].blocks|, c.blockSize);
    FreeQueue(c, j.piece);
    if c.pieces[j.piece].blocks[b].buf.Buf? {
      EditableOne(c.pieces[j.piece], b, IncRef);
      EditEffect(c, j.piece, [b], IncRef);
    }
  }

  lemma TriedOther(s: State, j: ReadJob, now: int)
    requires CanTry(s.c, j, now)
    ensures var t := Tried(s, j, now);
      && t.failed == s.failed && (TryRead(s.c, j, now).1.Miss? ==> t.fl == s.fl)
      && SameQueue(s.c, t.c, j.piece)
  {
    hide CacheInv, CacheHit, CopyFromPiece, JobFits;
    if j.piece in s.c.pieces {
      CacheHitKeeps(s.c, j.piece, j.requester, j.volatileRead, now);
      CacheHitEffect(s.c, j.piece, j.requester, j.volatileRead, now);
      HitBlockSize(s.c, j.piece, j.requester, j.volatileRead, now);
      CopyQueue(CacheHit(s.c, j.piece, j.requester, j.volatileRead, now), j);
    }
  }

  /** A new read job completes at once exactly if its blocks are cached. Otherwise it joins
      the queue of the read in progress, or becomes the read itself. */
  lemma PrepBooks(s: State, j: ReadJob, size: int, now: int)
    requires Inv(s) && CanPrep(s, j, size, now)
    ensures var t := Prep(s, j, size, now);
      var hit := j.piece in s.c.pieces && Cached(s.c.pieces[j.piece].blocks, j, s.c.blockSize);
      && t.failed == s.failed && t.completed == s.completed + (if hit then multiset{j} else multiset{})
      && (!hit ==> j.piece in t.c.pieces && t.c.pieces[j.piece].outstandingRead)
      && (!hit && j.piece in s.c.pieces && s.c.pieces[j.piece].outstandingRead ==>
            t.c.pieces[j.piece].readJobs == s.c.pieces[j.piece].readJobs + [j] && t.fl == s.fl)
      && (!hit && !(j.piece in s.c.pieces && s.c.pieces[j.piece].outstandingRead) ==>
            |t.fl| > 0 && t.fl[|t.fl| - 1] == Flight(Reading(j), j.piece, [], []))
  {
    hide Inv, CacheInv, JobFits, TryRead, Tried, AllocatePiece, CanEnqueue, InOneBlock, SameRefs, OneRefMore;
    PrepCanTry(s, j, size, now);
    TriedKeeps(s, j, now);
    TriedFacts(s, j, now);
    TryServes(s.c, j, now);
    TriedCache(s, j, now);
    var u := Tried(s, j, now);
    TriedOther(s, j, now);
    if j.piece in s.c.pieces && s.c.pieces[j.piece].outstandingRead { TriedHeld(s, j, now); }
    if TryRead(s.c, j, now).1.Miss? {
      MissEnabled(u, j, size, now);
      InInv(u);
      CacheFacts(u.c);
      AllocateEffect(u.c, j.piece, size, j.requester, READ_LRU1, now);
    }
  }
}
