/** Whole runs of the disk threads: any interleaving of their steps, from an empty
    cache on, keeps the invariant; and what the invariant means for every state such
    a run can reach. */
module ProtocolRuns {
  import opened CacheModel
  import opened CacheSpec
  import opened BlockEdits
  import opened CacheOps
  import opened Eviction
  import opened DiskProtocol
  import opened ProtocolFrames
  import F = FlushSteps
  import S = CacheSteps
  import H = HashSteps
  import R = ReadSteps

  /** `i` names the flight that goes on. */
  datatype Step =
    | TakeBuffer(addr: nat)
    | ReturnBuffer(addr: nat)
    | Write(id: PieceId, size: int, requester: nat, block: nat, buf: Buf, job: WriteJob, mid: Cache, now: int)
    | Evict(mid: Cache)
    | Hit(id: PieceId, requester: nat, volatileRead: bool, now: int)
    | Mark(id: PieceId, mode: EvictionMode)
    | Free(id: PieceId)
    | Flush(id: PieceId, end: nat, pinned: bool)
    | Writev(i: nat, ok: bool)
    | Flushed(i: nat, mid: Cache, now: int)
    | Kick(id: PieceId)
    | FeedCached(i: nat)
    | Kicked(i: nat)
    | Allocate(id: PieceId, size: int, requester: nat, state: int, now: int)
    | Hash(id: PieceId)
    | FeedRead(i: nat, buf: Buf, requester: nat, volatileRead: bool, now: int)
    | Hashed(i: nat, now: int)
    | HashFailed(i: nat, keep: bool)
    | Publish(id: PieceId)
    | PublishJob(id: PieceId, now: int)
    | Read(read: ReadJob, size: int, now: int)
    | ReadBlocks(i: nat, readAhead: nat, bufs: seq<Buf>, abort: bool, now: int)
    | ReadError(i: nat)
    | ReadPast(i: nat, ok: bool, abort: bool, now: int)
    | Reclaim(i: nat)

  ghost predicate CanFeedCached(s: State, i: nat) {
    && H.CanFeed(s, i) && (s.fl[i].kind.Hashing? ==> s.fl[i].kind.at in s.fl[i].blocks)
    && s.fl[i].kind.at < |s.c.pieces[s.fl[i].id].blocks| && s.c.pieces[s.fl[i].id].blocks[s.fl[i].kind.at].buf.Buf?
  }

  /** The hasher feeds what its block's buffer holds at this moment. */
  ghost function FedCached(s: State, i: nat): State
    requires CanFeedCached(s, i)
  {
    H.Feed(s, i, s.c.pieces[s.fl[i].id].blocks[s.fl[i].kind.at].buf.data)
  }

  lemma FedCachedKeeps(s: State, i: nat)
    requires Inv(s) && CanFeedCached(s, i)
    ensures Inv(FedCached(s, i)) && FedCached(s, i).submitted == s.submitted
  {
    hide Inv;
    H.FeedKeeps(s, i, s.c.pieces[s.fl[i].id].blocks[s.fl[i].kind.at].buf.data);
  }

  ghost predicate IsReading(s: State, i: nat) {
    i < |s.fl| && s.fl[i].kind.Reading? && s.fl[i].id in s.c.pieces
  }

  ghost predicate Enabled(s: State, st: Step) {
    match st
    case TakeBuffer(addr) => addr !in s.c.pool
    case ReturnBuffer(addr) => Outside(s.c, addr)
    case Write(id, size, requester, block, buf, job, mid, now) => S.CanWriteBlock(s, id, size, requester, block, buf, job, mid, now)
    case Evict(mid) => Evicts(s.c, mid) && CacheInv(mid)
    case Hit(id, requester, volatileRead, now) => id in s.c.pieces && now >= s.c.clock
    case Mark(id, mode) => id in s.c.pieces && s.c.pieces[id].jobs == []
    case Free(id) => id in s.c.pieces
    case Flush(id, end, _) => F.CanFlush(s, id, end)
    case Writev(i, ok) => F.CanWrite(s, i)
    case Flushed(i, mid, now) => F.CanFinish(s, i, mid, now)
    case Kick(id) => H.CanKick(s, id)
    case FeedCached(i) => CanFeedCached(s, i)
    case Kicked(i) => H.CanKickFinish(s, i)
    case Allocate(id, size, requester, state, now) => H.CanAllocate(s, id, size, state, now)
    case Hash(id) => H.CanHash(s, id)
    case FeedRead(i, buf, requester, volatileRead, now) => H.CanReadBack(s, i, buf, requester, volatileRead, now)
    case Hashed(i, now) => H.CanFinishHash(s, i, now)
    case HashFailed(i, keep) => H.CanFailHash(s, i)
    case Publish(id) => H.CanPublish(s, id)
    case PublishJob(id, now) => H.CanPublishAndSettle(s, id, now)
    case Read(job, size, now) => R.CanPrep(s, job, size, now)
    case ReadBlocks(i, readAhead, bufs, abort, now) => R.CanReadDone(s, i, readAhead, bufs, now)
    case ReadError(i) => IsReading(s, i)
    case ReadPast(i, ok, abort, now) => IsReading(s, i) && now >= s.c.clock
    case Reclaim(i) => i < |s.fl| && s.fl[i].kind.Referencing?
  }

  lemma ReturnKeeps(s: State, addr: nat)
    requires Inv(s) && Outside(s.c, addr)
    ensures Inv(s.(c := s.c.(pool := s.c.pool - {addr})))
  {
    hide CacheInv, Local, LogOk, Issued, PieceOk, Outside;
    var d := s.c.(pool := s.c.pool - {addr});
    var id := PieceId(0, 0);
    PoolForgets(s.c, addr);
    OthersSame(s.c, d, id);
    if id !in d.pieces { S.AbsentNoFlights(s, id); }
    S.Quiet(s, d, id);
  }

  /** The locked steps that leave the flights alone. */
  ghost function NextCache(s: State, st: Step): Cache
    requires Inv(s) && Enabled(s, st)
    requires st.TakeBuffer? || st.ReturnBuffer? || st.Evict? || st.Hit? || st.Mark? || st.Free? || st.Allocate?
  {
    hide CacheInv, Local, LogOk, Ledger, MaybeFree, MarkForEviction, AllocatePiece;
    H.InInv(s);
    match st
    case TakeBuffer(addr) => s.c.(pool := s.c.pool + {addr})
    case ReturnBuffer(addr) => s.c.(pool := s.c.pool - {addr})
    case Evict(mid) => mid
    case Hit(id, requester, volatileRead, now) =>
      S.HitKeeps(s, id, requester, volatileRead, now);
      CacheHit(s.c, id, requester, volatileRead, now)
    case Mark(id, mode) => MarkForEviction(s.c, id, mode)
    case Free(id) => MaybeFree(s.c, id)
    case Allocate(id, size, requester, state, now) => AllocatePiece(s.c, id, size, requester, state, now)
  }

  ghost function Next(s: State, st: Step): State
    requires Inv(s) && Enabled(s, st)
  {
    hide Inv, S.CanWriteBlock, F.CanFlush, F.CanWrite, F.CanFinish, H.CanKick, H.CanKickFinish, H.CanHash, H.CanReadBack;
    hide H.CanFinishHash, H.CanFailHash, H.CanPublishAndSettle, R.CanPrep, R.CanReadDone, CanFeedCached;
    match st
    case Write(id, size, requester, block, buf, job, mid, now) => S.WriteBlock(s, id, size, requester, block, buf, job, mid, now)
    case Flush(id, end, pinned) => F.FlushStart(s, id, end, pinned)
    case Writev(i, ok) => F.WriteRun(s, i, ok)
    case Flushed(i, mid, now) => F.FlushFinish(s, i, mid, now)
    case Kick(id) => H.KickStart(s, id)
    case FeedCached(i) => FedCached(s, i)
    case Kicked(i) => H.KickFinish(s, i)
    case Hash(id) => H.HashStart(s, id)
    case FeedRead(i, buf, requester, volatileRead, now) => H.ReadBack(s, i, buf, requester, volatileRead, now)
    case Hashed(i, now) => H.FinishHash(s, i, now)
    case HashFailed(i, keep) => H.FailHash(s, i, keep)
    case Publish(id) => H.Published(s, id)
    case PublishJob(id, now) => H.PublishAndSettle(s, id, now)
    case Read(job, size, now) => R.Prep(s, job, size, now)
    case ReadBlocks(i, readAhead, bufs, abort, now) => R.ReadDone(s, i, readAhead, bufs, abort, now)
    case ReadError(i) => R.ReadFailed(s, i)
    case ReadPast(i, ok, abort, now) => R.ReadUncached(s, i, ok, abort, now)
    case Reclaim(i) => R.Reclaimed(s, i)
    case _ => s.(c := NextCache(s, st))
  }

  lemma CacheStepKeeps(s: State, st: Step)
    requires Inv(s) && Enabled(s, st)
    requires st.TakeBuffer? || st.ReturnBuffer? || st.Evict? || st.Hit? || st.Mark? || st.Free? || st.Allocate?
    ensures Inv(s.(c := NextCache(s, st)))
  {
    hide Inv, CacheInv, Evicts, MaybeFree, MarkForEviction, AllocatePiece, CacheHit, Outside;
    match st
    case TakeBuffer(addr) => S.AllocateBufferKeeps(s, addr);
    case ReturnBuffer(addr) => ReturnKeeps(s, addr);
    case Evict(mid) => S.EvictKeeps(s, mid);
    case Hit(id, requester, volatileRead, now) => S.HitKeeps(s, id, requester, volatileRead, now);
    case Mark(id, mode) => S.MarkKeeps(s, id, mode);
    case Free(id) => S.FreeKeeps(s, id);
    case Allocate(id, size, requester, state, now) => H.AllocatePieceKeeps(s, id, size, requester, state, now);
  }

  /** Every step of every thread keeps the invariant. */
  lemma StepKeeps(s: State, st: Step)
    requires Inv(s) && Enabled(s, st)
    ensures Inv(Next(s, st))
  {
    hide Inv, CacheInv, S.CanWriteBlock, S.WriteBlock, F.CanFlush, F.FlushStart, F.CanWrite, F.WriteRun, F.CanFinish, F.FlushFinish;
    hide H.CanKick, H.KickStart, H.Feed, H.KickFinish, H.CanHash, H.HashStart, H.CanReadBack, H.ReadBack, H.CanFinishHash, H.FinishHash, CanFeedCached, FedCached;
    hide H.FailHash, H.CanFailHash, H.Published, H.CanPublish, H.CanPublishAndSettle, H.PublishAndSettle, H.CanKickFinish, H.CanFeed;
    hide R.CanPrep, R.Prep, R.CanReadDone, R.ReadDone, R.ReadFailed, R.ReadUncached, R.Reclaimed, NextCache, Outside, Evicts;
    match st
    case Write(id, size, requester, block, buf, job, mid, now) => S.WriteBlockKeeps(s, id, size, requester, block, buf, job, mid, now);
    case Flush(id, end, pinned) => F.FlushStartKeeps(s, id, end, pinned);
    case Writev(i, ok) => F.WriteRunKeeps(s, i, ok);
    case Flushed(i, mid, now) => F.FlushFinishKeeps(s, i, mid, now);
    case Kick(id) => H.KickStartKeeps(s, id);
    case FeedCached(i) => FedCachedKeeps(s, i);
    case Kicked(i) => H.KickFinishKeeps(s, i);
    case Hash(id) => H.HashStartKeeps(s, id);
    case FeedRead(i, buf, requester, volatileRead, now) => H.ReadBackKeeps(s, i, buf, requester, volatileRead, now);
    case Hashed(i, now) => H.FinishHashKeeps(s, i, now);
    case HashFailed(i, keep) => H.FailHashKeeps(s, i, keep);
    case Publish(id) => H.PublishKeeps(s, id);
    case PublishJob(id, now) => H.PublishAndSettleKeeps(s, id, now);
    case Read(job, size, now) => R.PrepKeeps(s, job, size, now);
    case ReadBlocks(i, readAhead, bufs, abort, now) => R.ReadDoneKeeps(s, i, readAhead, bufs, abort, now);
    case ReadError(i) => R.ReadFailedKeeps(s, i);
    case ReadPast(i, ok, abort, now) => R.ReadUncachedKeeps(s, i, ok, abort, now);
    case Reclaim(i) => R.ReclaimedKeeps(s, i);
    case _ => CacheStepKeeps(s, st);
  }

  // ------------------------------------------------------------------------ runs

  /** Nothing cached, nobody at work. */
  ghost function Initial(blockSize: int, ghostSize: int, clock: int): State {
    State(Cache(blockSize, map[], [[], [], [], [], [], []], 0, 0, 0, CacheMiss, ghostSize, clock, {}), [], [], map[],
          multiset{}, multiset{}, multiset{})
  }

  lemma InitialInv(blockSize: int, ghostSize: int, clock: int)
    requires blockSize > 0 && ghostSize > 0
    ensures Inv(Initial(blockSize, ghostSize, clock))
  {
    var c := Initial(blockSize, ghostSize, clock).c;
    assert c.pieces.Keys == {};
    assert Total(c.pieces) == NONE;
  }

  /** The steps can be taken one after the other. */
  ghost predicate Runs(s: State, steps: seq<Step>)
    requires Inv(s)
    decreases |steps|
  {
    hide Inv, Enabled, Next;
    steps != [] ==> Enabled(s, steps[0]) && (StepKeeps(s, steps[0]); Runs(Next(s, steps[0]), steps[1..]))
  }

  ghost function Run(s: State, steps: seq<Step>): State
    requires Inv(s) && Runs(s, steps)
    decreases |steps|
  {
    hide Inv, Enabled, Next;
    if steps == [] then s else
      StepKeeps(s, steps[0]);
      Run(Next(s, steps[0]), steps[1..])
  }

  /** Every interleaving of the disk threads' steps keeps the invariant. */
  lemma {:induction false} RunKeeps(s: State, steps: seq<Step>)
    requires Inv(s) && Runs(s, steps)
    ensures Inv(Run(s, steps))
    decreases |steps|
  {
    hide Inv, Enabled, Next;
    if steps != [] {
      StepKeeps(s, steps[0]);
      RunKeeps(Next(s, steps[0]), steps[1..]);
    }
  }

  // ------------------------------------------------- what holds in every such state

  ghost predicate Writing(s: State, i: nat, id: PieceId, k: nat) {
    i < |s.fl| && s.fl[i].id == id && s.fl[i].kind.Flushing? && k in s.fl[i].blocks
  }

  lemma {:induction false} SomeFlush(fl: seq<Flight>, id: PieceId, k: nat) returns (i: nat)
    requires Loads(fl, id, k).flushes > 0
    ensures i < |fl| && fl[i].id == id && fl[i].kind.Flushing? && k in fl[i].blocks
  {
    var n := |fl| - 1;
    if LoadOf(fl[n], id, k).flushes > 0 { return n; }
    i := SomeFlush(fl[..n], id, k);
  }

  lemma MatchesAt(s: State, id: PieceId, k: nat)
    requires Inv(s) && id in s.c.pieces && k < |s.c.pieces[id].blocks|
    ensures Matches(s.c.pieces[id], k, Loads(s.fl, id, k)) && BlockOk(s.c.pieces[id].blocks[k])
  {
    hide CacheInv, LogOk, Ledger, JobsOk, HashOk, ReadsOk, FlightOk, Matches, PieceOk, BlockOk;
    PieceFacts(s.c, id);
    BlockFacts(s.c.pieces[id], s.c.blockSize, k);
  }

  /** A pending block is in the hands of exactly one flush; it is dirty, and its
      reference count is the number of holds the threads have on it. */
  lemma PendingOwned(s: State, id: PieceId, k: nat)
    requires Inv(s) && id in s.c.pieces && k < |s.c.pieces[id].blocks|
    ensures s.c.pieces[id].blocks[k].refcount == Loads(s.fl, id, k).refs
    ensures s.c.pieces[id].blocks[k].pending <==> exists i :: Writing(s, i, id, k)
    ensures s.c.pieces[id].blocks[k].pending ==> s.c.pieces[id].blocks[k].dirty && s.c.pieces[id].blocks[k].buf.Buf?
    ensures forall i, j :: Writing(s, i, id, k) && Writing(s, j, id, k) ==> i == j
  {
    hide Inv, Loads;
    MatchesAt(s, id, k);
    if s.c.pieces[id].blocks[k].pending {
      var i := SomeFlush(s.fl, id, k);
      assert Writing(s, i, id, k);
    }
    forall i | Writing(s, i, id, k) ensures s.c.pieces[id].blocks[k].pending { LoadsAtLeast(s.fl, i, id, k); }
    forall i, j | Writing(s, i, id, k) && Writing(s, j, id, k) ensures i == j {
      if i < j { LoadsTwo(s.fl, i, j, id, k); }
      if j < i { LoadsTwo(s.fl, j, i, id, k); }
    }
  }

  /** A piece somebody works on stays in the cache, and every block he holds keeps the
      buffer he found in it. */
  lemma HeldKept(s: State, i: nat, a: nat)
    requires Inv(s) && i < |s.fl| && a < |s.fl[i].blocks|
    ensures s.fl[i].id in s.c.pieces && |s.fl[i].bufs| == |s.fl[i].blocks|
    ensures var bs := s.c.pieces[s.fl[i].id].blocks; var k := s.fl[i].blocks[a];
      k < |bs| && bs[k].buf == s.fl[i].bufs[a] && bs[k].buf.Buf? && bs[k].refcount > 0
  {
    hide CacheInv, LogOk, Ledger, WroteSince, Loads;
    var f := s.fl[i];
    assert FlightOk(f, s.c.pieces[f.id], s.log, s.hungAt, s.c.blockSize);
    assert f.blocks[a] in f.blocks;
    LoadsAtLeast(s.fl, i, f.id, f.blocks[a]);
    assert Matches(s.c.pieces[f.id], f.blocks[a], Loads(s.fl, f.id, f.blocks[a]));
  }

  /** No two read jobs are issued for one piece, and jobs queue up only while one is. */
  lemma OneReader(s: State, i: nat, j: nat)
    requires Inv(s) && i < |s.fl| && j < |s.fl| && R.Reader(s.fl[i]) && R.Reader(s.fl[j]) && s.fl[i].id == s.fl[j].id
    ensures i == j
    ensures s.c.pieces[s.fl[i].id].outstandingRead
  {
    hide Inv, Loads;
    R.ReaderFacts(s, i);
    MatchesAt(s, s.fl[i].id, 0);
    if i < j { LoadsTwo(s.fl, i, j, s.fl[i].id, 0); }
    if j < i { LoadsTwo(s.fl, j, i, s.fl[i].id, 0); }
  }

  lemma {:induction false} SomeReader(fl: seq<Flight>, id: PieceId) returns (i: nat)
    requires Loads(fl, id, 0).reading > 0
    ensures i < |fl| && fl[i].id == id && R.Reader(fl[i])
  {
    var n := |fl| - 1;
    if LoadOf(fl[n], id, 0).reading > 0 { return n; }
    i := SomeReader(fl[..n], id);
  }

  lemma QueueHasReader(s: State, id: PieceId) returns (i: nat)
    requires Inv(s) && id in s.c.pieces && s.c.pieces[id].readJobs != []
    ensures i < |s.fl| && s.fl[i].id == id && R.Reader(s.fl[i])
  {
    hide Inv, Loads, PieceOk, HashOk, JobFits;
    R.ReadsFacts(s, id);
    H.InvFacts(s, id);
    H.HasBlocks(s.c.pieces[id], s.c.blockSize);
    MatchesAt(s, id, 0);
    i := SomeReader(s.fl, id);
  }

  /** At most one hasher works on a piece, and only while the piece is marked so. */
  lemma HashersApart(s: State, i: nat, j: nat)
    requires Inv(s) && i < |s.fl| && j < |s.fl| && H.Hasher(s.fl[i]) && H.Hasher(s.fl[j]) && s.fl[i].id == s.fl[j].id
    ensures i == j
  {
    hide Inv, Loads, H.CanUnlock, PieceOk, HashOk;
    H.HasherEnabled(s, i);
    HasherPresent(s, i);
    H.InvFacts(s, s.fl[i].id);
    H.HasBlocks(s.c.pieces[s.fl[i].id], s.c.blockSize);
    MatchesAt(s, s.fl[i].id, 0);
    if i < j { LoadsTwo(s.fl, i, j, s.fl[i].id, 0); }
    if j < i { LoadsTwo(s.fl, j, i, s.fl[i].id, 0); }
  }

  lemma HasherPresent(s: State, i: nat)
    requires Inv(s) && i < |s.fl|
    ensures s.fl[i].id in s.c.pieces
  {
    hide CacheInv, LogOk, Ledger, Local;
  }

  /** The hash of a piece was fed blocks 0, 1, 2, ... once each, every feed is in the log,
      and while nobody works on it its offset is exactly the bytes of the blocks fed. */
  lemma HashCovers(s: State, id: PieceId)
    requires Inv(s) && id in s.c.pieces && s.c.pieces[id].hash.Some?
    ensures var h := s.c.pieces[id].hash.value;
      && (forall k :: 0 <= k < |h.fed| ==> h.fed[k].block == k) && |h.fed| <= |s.c.pieces[id].blocks|
      && (forall k :: 0 <= k < |h.fed| ==> FedBlock(id, h.fed[k]) in s.log)
      && (!s.c.pieces[id].hashing ==> h.offset == Off(|h.fed|, s.c.blockSize, s.c.pieces[id].size))
  {
    hide Inv, PieceOk;
    H.InvFacts(s, id);
    H.LoggedFacts(s, id);
  }

  /** A write job was reported done only after it was hung and its block was then
      written with the content the cache held. */
  lemma DoneIsWritten(s: State, d: nat) returns (h: nat, m: nat)
    requires Inv(s) && d < |s.log| && s.log[d].Done? && s.log[d].ok
    ensures h < m < d && s.log[h] == HungJob(s.log[d].id, s.log[d].job)
    ensures s.log[m] == Wrote(s.log[d].id, s.log[d].job.block, s.log[d].data)
  {
    hide CacheInv, Ledger, Local;
    h, m :| 0 <= h < m < d && s.log[h] == HungJob(s.log[d].id, s.log[d].job)
            && s.log[m] == Wrote(s.log[d].id, s.log[d].job.block, s.log[d].data);
  }

  /** A digest was published only of a hash that was fed every block of the piece, each
      once and in order; each feed was logged before. */
  lemma DigestWhole(s: State, d: nat)
    requires Inv(s) && d < |s.log| && s.log[d].Digest?
    ensures |s.log[d].fed| == s.log[d].blocks && forall k :: 0 <= k < |s.log[d].fed| ==>
              s.log[d].fed[k].block == k && FedBlock(s.log[d].id, s.log[d].fed[k]) in s.log[..d]
  {
    hide CacheInv, Ledger, Local;
  }

  // ------------------------------------------------------------- what is hashed

  /** The step feeds what the log says: the content of the block's buffer at that moment,
      which the hasher has locked, or the content that it has just read from disk for a
      block it has not locked. */
  ghost predicate Feeds(s: State, st: Step, e: Event) {
    && e.FedBlock?
    && match st
       case FeedCached(i) =>
         && Fed(s, i, e) && e.what.block < |s.c.pieces[e.id].blocks|
         && var b := s.c.pieces[e.id].blocks[e.what.block];
            b.buf.Buf? && b.buf.data == e.what.data && b.refcount > 0 && b.buf in s.fl[i].bufs
       case FeedRead(i, buf, _, _, _) => Fed(s, i, e) && buf.Buf? && buf.data == e.what.data && e.what.block !in s.fl[i].blocks
       case _ => false
  }

  /** It is the next block of flight `i`. */
  ghost predicate Fed(s: State, i: nat, e: Event)
    requires e.FedBlock?
  {
    i < |s.fl| && H.Hasher(s.fl[i]) && s.fl[i].id == e.id && s.fl[i].kind.at == e.what.block && e.id in s.c.pieces
  }

  /** The log only grew, and what is logged as a feed was one. */
  ghost predicate LogsFeeds(s: State, st: Step, log: seq<Event>) {
    s.log <= log && forall m :: |s.log| <= m < |log| && log[m].FedBlock? ==> Feeds(s, st, log[m])
  }

  /** Of all steps only feeds are logged as such. */
  lemma NextHashed(s: State, st: Step)
    requires Inv(s) && Enabled(s, st)
    ensures LogsFeeds(s, st, Next(s, st).log)
  {
    hide Inv, Enabled, Next, LogsFeeds;
    if st.Read? || st.ReadBlocks? || st.ReadError? || st.ReadPast? {
      ReadLog(s, st);
    } else if st.FeedCached? || st.FeedRead? {
      FeedLog(s, st);
    } else if st.Flushed? || st.Writev? {
      FlushLog(s, st);
    } else {
      OtherLog(s, st);
    }
  }

  lemma ReadLog(s: State, st: Step)
    requires Inv(s) && Enabled(s, st) && (st.Read? || st.ReadBlocks? || st.ReadError? || st.ReadPast?)
    ensures LogsFeeds(s, st, Next(s, st).log)
  {
    hide Inv, CacheInv, R.CanReadDone, R.Prep, R.ReadDone, R.ReadFailed, R.ReadUncached, R.CanPrep, Feeds;
    match st
    case Read(job, size, now) => R.PrepKeeps(s, job, size, now);
    case ReadBlocks(i, readAhead, bufs, abort, now) => R.ReadDoneKeeps(s, i, readAhead, bufs, abort, now);
    case ReadError(i) => R.ReadFailedKeeps(s, i);
    case ReadPast(i, ok, abort, now) => R.ReadUncachedKeeps(s, i, ok, abort, now);
  }

  lemma FeedLog(s: State, st: Step)
    requires Inv(s) && Enabled(s, st) && (st.FeedCached? || st.FeedRead?)
    ensures LogsFeeds(s, st, Next(s, st).log)
  {
    hide Inv, CacheInv, CanFeedCached, FedCached, H.CanReadBack, H.ReadBack, Feeds;
    match st
    case FeedCached(i) => CachedLog(s, i);
    case FeedRead(i, buf, requester, volatileRead, now) => ReadBackLog(s, i, buf, requester, volatileRead, now);
  }

  lemma FlushLog(s: State, st: Step)
    requires Inv(s) && Enabled(s, st) && (st.Flushed? || st.Writev?)
    ensures LogsFeeds(s, st, Next(s, st).log)
  {
    hide Inv, CacheInv, F.CanFinish, F.FlushFinish, F.CanWrite, F.WriteRun, Feeds;
    match st
    case Flushed(i, mid, now) => FlushedLog(s, i, mid, now);
    case Writev(i, ok) => WrittenLog(s, i, ok);
  }

  predicate FeedsNothing(st: Step) {
    !st.Read? && !st.ReadBlocks? && !st.ReadError? && !st.ReadPast? && !st.FeedCached? && !st.FeedRead? && !st.Flushed? && !st.Writev?
  }

  lemma OtherLog(s: State, st: Step)
    requires Inv(s) && Enabled(s, st) && FeedsNothing(st)
    ensures LogsFeeds(s, st, Next(s, st).log)
  {
    hide Inv, CacheInv, NextCache, R.CanReadDone, R.Prep, R.ReadDone, R.ReadFailed, R.ReadUncached, CanFeedCached, FedCached;
    hide Evicts, Outside, Editable, EditBlocks, EditAll, InsertOne, CacheHit, MaybeFree, AddDirty, AllocatePiece, S.CanAdd, MarkForEviction, S.Ready;
    hide H.Unlocked, H.Locked, H.Settle, H.CachedFrom, H.RunFrom, H.CanInsert, F.Selected, F.BufsAt, JobFits, F.FlushFinish, F.WriteRun, H.ReadBack;
    hide F.CanFinish, F.CanWrite, H.CanReadBack, R.CanPrep;
  }

  lemma FlushedLog(s: State, i: nat, mid: Cache, now: int)
    requires F.CanFinish(s, i, mid, now)
    ensures var t := F.FlushFinish(s, i, mid, now);
      s.log <= t.log && forall m :: |s.log| <= m < |t.log| ==> t.log[m].Done?
  {
    hide CacheInv, F.CanLand, F.Stays, F.Landed, EditAll, Evicts, MaybeFree, F.Released;
  }

  lemma WrittenLog(s: State, i: nat, ok: bool)
    requires F.CanWrite(s, i)
    ensures var t := F.WriteRun(s, i, ok);
      s.log <= t.log && forall m :: |s.log| <= m < |t.log| ==> t.log[m].Wrote?
  {
    hide F.RunEnd;
  }

  lemma CachedLog(s: State, i: nat)
    requires Inv(s) && CanFeedCached(s, i)
    ensures var t := FedCached(s, i);
      && t.log == s.log + [t.log[|s.log|]] && Feeds(s, FeedCached(i), t.log[|s.log|])
  {
    hide Inv;
    H.CachedFeed(s, i);
  }

  lemma ReadBackLog(s: State, i: nat, buf: Buf, requester: nat, volatileRead: bool, now: int)
    requires H.CanReadBack(s, i, buf, requester, volatileRead, now)
    ensures var t := H.ReadBack(s, i, buf, requester, volatileRead, now);
      && t.log == s.log + [t.log[|s.log|]] && Feeds(s, FeedRead(i, buf, requester, volatileRead, now), t.log[|s.log|])
  {
    hide CacheInv, InsertOne, CacheHit, Outside;
  }

  /** The log has no other feeds: where one stands in it, some step of the run made it,
      from what the block's buffer held at that moment. */
  lemma {:induction false} HashedFrom(s: State, steps: seq<Step>, m: nat) returns (n: nat)
    requires Inv(s) && Runs(s, steps) && |s.log| <= m < |Run(s, steps).log| && Run(s, steps).log[m].FedBlock?
    ensures n < |steps| && Runs(s, steps[..n]) && Feeds(Run(s, steps[..n]), steps[n], Run(s, steps).log[m])
    decreases |steps|
  {
    hide Inv, Enabled, Next, Feeds;
    var st := steps[0];
    var t := Next(s, st);
    StepKeeps(s, st);
    NextHashed(s, st);
    if m < |t.log| {
      n := 0;
      LogStays(t, steps[1..]);
      assert steps[..0] == [];
    } else {
      var n1 := HashedFrom(t, steps[1..], m);
      n := n1 + 1;
      assert steps[..n][0] == st && steps[..n][1..] == steps[1..][..n - 1];
    }
  }

  /** Each block of a published digest was fed by a step of the run, from what its buffer
      held at that moment. */
  lemma DigestContent(blockSize: int, ghostSize: int, clock: int, steps: seq<Step>, d: nat, k: nat) returns (n: nat)
    requires blockSize > 0 && ghostSize > 0 && Inv(Initial(blockSize, ghostSize, clock)) && Runs(Initial(blockSize, ghostSize, clock), steps)
    requires var log := Run(Initial(blockSize, ghostSize, clock), steps).log; d < |log| && log[d].Digest? && k < |log[d].fed|
    ensures var s0 := Initial(blockSize, ghostSize, clock); var e := Run(s0, steps).log[d];
      && e.fed[k].block == k && n < |steps| && Runs(s0, steps[..n])
      && Feeds(Run(s0, steps[..n]), steps[n], FedBlock(e.id, e.fed[k]))
  {
    hide Inv, Runs, Run, Feeds;
    var s0 := Initial(blockSize, ghostSize, clock);
    RunKeeps(s0, steps);
    var s := Run(s0, steps);
    DigestWhole(s, d);
    var m :| 0 <= m < d && s.log[..d][m] == FedBlock(s.log[d].id, s.log[d].fed[k]);
    n := HashedFrom(s0, steps, m);
  }

  lemma {:induction false} LogStays(s: State, steps: seq<Step>)
    requires Inv(s) && Runs(s, steps)
    ensures s.log <= Run(s, steps).log
    decreases |steps|
  {
    hide Inv, Enabled, Next;
    if steps != [] {
      StepKeeps(s, steps[0]);
      NextHashed(s, steps[0]);
      LogStays(Next(s, steps[0]), steps[1..]);
    }
  }

  // -------------------------------------------------------------- the read jobs

  ghost predicate SubmittedOnce(s: State) { forall j: ReadJob :: s.submitted[j] <= 1 }

  /** Only prep_read_job_impl takes in new jobs, one at a time. */
  lemma NextSubmitted(s: State, st: Step)
    requires Inv(s) && Enabled(s, st)
    ensures Next(s, st).submitted == s.submitted + (if st.Read? then multiset{st.read} else multiset{})
    ensures st.Read? ==> st.read !in s.submitted
  {
    hide Inv, CacheInv, NextCache, R.CanReadDone, R.Prep, R.ReadDone, R.ReadFailed, R.ReadUncached, CanFeedCached, FedCached;
    hide Evicts, Outside, Editable, EditBlocks, EditAll, InsertOne, CacheHit, MaybeFree, AddDirty, AllocatePiece, S.CanAdd, F.Landed;
    hide F.Released, F.Completions, F.Stays, F.CanLand, F.BufsAt, MarkForEviction, S.Ready, H.Unlocked, H.Locked, H.Settle, H.CachedFrom, H.RunFrom, H.CanInsert, F.Selected, JobFits;
    match st
    case Read(job, size, now) => R.PrepKeeps(s, job, size, now);
    case ReadBlocks(i, readAhead, bufs, abort, now) => R.ReadDoneKeeps(s, i, readAhead, bufs, abort, now);
    case ReadError(i) => R.ReadFailedKeeps(s, i);
    case ReadPast(i, ok, abort, now) => R.ReadUncachedKeeps(s, i, ok, abort, now);
    case FeedCached(i) => FedCachedKeeps(s, i);
    case _ =>
  }

  /** What a step does to the books of read jobs that have ended. Only steps of the read path
      end any: a new job whose blocks are cached; the job a read was issued for, as the read
      went; and the jobs queued behind it, which complete if their blocks are cached, and
      fail after a read error and when shutting down. */
  ghost predicate Ended(s: State, st: Step, t: State)
    requires Inv(s) && Enabled(s, st)
  {
    hide Inv, CacheInv, JobFits, Outside;
    match st
    case Read(j, size, now) =>
      var hit := j.piece in s.c.pieces && R.Cached(s.c.pieces[j.piece].blocks, j, s.c.blockSize);
      t.failed == s.failed && t.completed == s.completed + (if hit then multiset{j} else multiset{})
    case ReadBlocks(i, readAhead, bufs, abort, now) =>
      var p, job := s.c.pieces[s.fl[i].id], s.fl[i].kind.job;
      exists bs :: R.StoredBlocks(p.blocks, bs, FirstBlock(job, s.c.blockSize), bufs)
        && R.QueueEnds(s.(completed := s.completed + multiset{job}), t, s.fl[i].id, p.readJobs, bs, abort)
    case ReadError(i) =>
      t.completed == s.completed && t.failed == s.failed + multiset{s.fl[i].kind.job} + multiset(s.c.pieces[s.fl[i].id].readJobs)
    case ReadPast(i, ok, abort, now) =>
      var p, own := s.c.pieces[s.fl[i].id], multiset{s.fl[i].kind.job};
      R.QueueEnds(s.(completed := s.completed + if ok then own else multiset{}, failed := s.failed + if ok then multiset{} else own),
                  t, s.fl[i].id, p.readJobs, p.blocks, abort)
    case _ => t.completed == s.completed && t.failed == s.failed
  }

  predicate ReadsPath(st: Step) { st.Read? || st.ReadBlocks? || st.ReadError? || st.ReadPast? }

  lemma OthersEndNone(s: State, st: Step)
    requires Inv(s) && Enabled(s, st) && !ReadsPath(st)
    ensures Next(s, st).completed == s.completed && Next(s, st).failed == s.failed
  {
    hide Inv, CacheInv, NextCache, CanFeedCached;
    hide Evicts, Outside, Editable, EditBlocks, EditAll, InsertOne, CacheHit, MaybeFree, AddDirty, AllocatePiece, S.CanAdd, F.Landed;
    hide F.Released, F.Completions, F.Stays, F.CanLand, F.BufsAt, MarkForEviction, S.Ready, H.Unlocked, H.Locked, H.Settle, H.CachedFrom, H.RunFrom, H.CanInsert, F.Selected, JobFits;
  }

  lemma NextEnded(s: State, st: Step)
    requires Inv(s) && Enabled(s, st)
    ensures Ended(s, st, Next(s, st))
  {
    hide Inv, CacheInv, R.CanReadDone, R.CanPrep, R.Prep, R.ReadDone, R.ReadFailed, R.ReadUncached, R.Cached, R.QueueEnds, R.StoredBlocks, Outside, JobFits;
    if ReadsPath(st) {
      match st
      case Read(job, size, now) => R.PrepBooks(s, job, size, now);
      case ReadBlocks(i, readAhead, bufs, abort, now) => R.ReadDoneBooks(s, i, readAhead, bufs, abort, now);
      case ReadError(i) => R.ReadFailedBooks(s, i);
      case ReadPast(i, ok, abort, now) => R.ReadUncachedBooks(s, i, ok, abort, now);
    } else {
      OthersEndNone(s, st);
    }
  }

  lemma {:induction false} RunSubmitted(s: State, steps: seq<Step>)
    requires Inv(s) && Runs(s, steps) && SubmittedOnce(s)
    ensures SubmittedOnce(Run(s, steps))
    decreases |steps|
  {
    hide Inv, Enabled, Next;
    if steps != [] {
      StepKeeps(s, steps[0]);
      NextSubmitted(s, steps[0]);
      RunSubmitted(Next(s, steps[0]), steps[1..]);
    }
  }

  /** Each submitted read job is issued, queued, completed or failed, and in exactly one
      of these ways. */
  lemma JobInOnePlace(s: State, j: ReadJob)
    requires Inv(s) && SubmittedOnce(s) && j in s.submitted
    ensures s.completed[j] + s.failed[j] + Issued(s.fl, j) + Queued(s.c, j) == 1
  {
    hide CacheInv, Local, LogOk, Issued, Queued;
  }

  /** All of it, for every state the disk threads can reach. */
  lemma Reachable(blockSize: int, ghostSize: int, clock: int, steps: seq<Step>)
    requires blockSize > 0 && ghostSize > 0
    ensures Inv(Initial(blockSize, ghostSize, clock))
    ensures Runs(Initial(blockSize, ghostSize, clock), steps) ==>
      var s := Run(Initial(blockSize, ghostSize, clock), steps); Inv(s) && SubmittedOnce(s)
  {
    hide Inv, Runs, Run;
    InitialInv(blockSize, ghostSize, clock);
    if Runs(Initial(blockSize, ghostSize, clock), steps) {
      RunKeeps(Initial(blockSize, ghostSize, clock), steps);
      RunSubmitted(Initial(blockSize, ghostSize, clock), steps);
    }
  }
}
