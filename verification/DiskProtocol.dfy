/** The disk threads as a step system. Each step is what one thread does in one
    stretch: while it holds the cache mutex, or one disk or hash operation it does
    after dropping it. Steps of different threads interleave in any order. */
module DiskProtocol {
  import opened CacheModel
  import opened CacheSpec
  import opened BlockEdits
  import opened CacheOps
  import opened Eviction

  // ------------------------------------------------------------------ flights

  /** What a thread (or a peer's send buffer) still has to do with a piece. `pinned` says
      that the caller of flush_range holds a pin of its own. */
  datatype Kind =
    | Flushing(done: nat, failed: bool, mark: nat, pinned: bool)
    | Kicking(from: nat, at: nat)
    | Hashing(from: nat, at: nat)
    | Referencing
    | Reading(job: ReadJob)
    | Serving(next: Option<ReadJob>)

  /** A stretch of work between two locked sections: the blocks it has references
      to, and the buffers it found in them. */
  datatype Flight = Flight(kind: Kind, id: PieceId, blocks: seq<nat>, bufs: seq<Buf>)

  datatype Event =
    | HungJob(id: PieceId, job: WriteJob)
    | Wrote(id: PieceId, block: nat, data: nat)
    | Done(id: PieceId, job: WriteJob, ok: bool, data: nat)
    | FedBlock(id: PieceId, what: Fed)
    | Digest(id: PieceId, blocks: nat, fed: seq<Fed>)

  /** How often flights hold a block, hold it for writing, pin the piece, hash it, read it. */
  datatype Load = Load(refs: int, flushes: int, pins: int, hashes: int, reading: int) {
    function Plus(o: Load): Load {
      Load(refs + o.refs, flushes + o.flushes, pins + o.pins, hashes + o.hashes, reading + o.reading)
    }
    function Minus(o: Load): Load {
      Load(refs - o.refs, flushes - o.flushes, pins - o.pins, hashes - o.hashes, reading - o.reading)
    }
    predicate AtLeast(o: Load) {
      refs >= o.refs && flushes >= o.flushes && pins >= o.pins && hashes >= o.hashes && reading >= o.reading
    }
  }
  const NO_LOAD := Load(0, 0, 0, 0, 0)

  /** A flush is pinned by flush_range, and by most of its callers. */
  function Pins(pinned: bool): int { if pinned then 2 else 1 }

  function LoadOf(f: Flight, id: PieceId, k: nat): Load {
    if f.id != id then NO_LOAD else
      var held := if k in f.blocks then 1 else 0;
      match f.kind
      case Flushing(_, _, _, pinned) => Load(held, held, Pins(pinned), 0, 0)
      case Kicking(_, _) => Load(held, 0, 1, 1, 0)
      case Hashing(_, _) => Load(held, 0, 1, 1, 0)
      case Referencing => Load(held, 0, 0, 0, 0)
      case Reading(_) => Load(held, 0, 0, 0, 1)
      case Serving(_) => Load(held, 0, 0, 0, 1)
  }

  function Loads(fl: seq<Flight>, id: PieceId, k: nat): Load {
    if fl == [] then NO_LOAD else Loads(fl[..|fl| - 1], id, k).Plus(LoadOf(fl[|fl| - 1], id, k))
  }

  function Drop(fl: seq<Flight>, i: nat): seq<Flight>
    requires i < |fl|
  {
    fl[..i] + fl[i + 1..]
  }

  lemma LoadsSnoc(fl: seq<Flight>, f: Flight, id: PieceId, k: nat)
    ensures Loads(fl + [f], id, k) == Loads(fl, id, k).Plus(LoadOf(f, id, k))
  {
    assert (fl + [f])[..|fl|] == fl;
  }

  lemma {:induction false} LoadsReplace(fl: seq<Flight>, i: nat, f: Flight, id: PieceId, k: nat)
    requires i < |fl|
    ensures Loads(fl[i := f], id, k) == Loads(fl, id, k).Minus(LoadOf(fl[i], id, k)).Plus(LoadOf(f, id, k))
  {
    var n := |fl| - 1;
    hide LoadOf;
    if i == n {
      assert fl[i := f][..n] == fl[..n];
    } else {
      assert fl[i := f][..n] == fl[..n][i := f];
      LoadsReplace(fl[..n], i, f, id, k);
    }
  }

  lemma {:induction false} LoadsDrop(fl: seq<Flight>, i: nat, id: PieceId, k: nat)
    requires i < |fl|
    ensures Loads(Drop(fl, i), id, k) == Loads(fl, id, k).Minus(LoadOf(fl[i], id, k))
  {
    var n := |fl| - 1;
    hide LoadOf;
    if i == n {
      assert Drop(fl, i) == fl[..n];
    } else {
      assert Drop(fl, i) == Drop(fl[..n], i) + [fl[n]];
      LoadsSnoc(Drop(fl[..n], i), fl[n], id, k);
      LoadsDrop(fl[..n], i, id, k);
    }
  }

  /** One flight's share is part of the total. */
  lemma {:induction false} LoadsAtLeast(fl: seq<Flight>, i: nat, id: PieceId, k: nat)
    requires i < |fl|
    ensures Loads(fl, id, k).AtLeast(LoadOf(fl[i], id, k)) && Loads(fl, id, k).AtLeast(NO_LOAD)
  {
    var n := |fl| - 1;
    LoadsNonNegative(fl[..n], id, k);
    if i < n { LoadsAtLeast(fl[..n], i, id, k); }
  }

  lemma {:induction false} LoadsNonNegative(fl: seq<Flight>, id: PieceId, k: nat)
    ensures Loads(fl, id, k).AtLeast(NO_LOAD)
  {
    if fl != [] { LoadsNonNegative(fl[..|fl| - 1], id, k); }
  }

  lemma {:induction false} LoadsNone(fl: seq<Flight>, id: PieceId, k: nat)
    requires forall i :: 0 <= i < |fl| ==> fl[i].id != id
    ensures Loads(fl, id, k) == NO_LOAD
  {
    if fl != [] { LoadsNone(fl[..|fl| - 1], id, k); }
  }

  /** Two different flights' shares are both part of the total. */
  lemma LoadsTwo(fl: seq<Flight>, i: nat, j: nat, id: PieceId, k: nat)
    requires i < j < |fl|
    ensures Loads(fl, id, k).AtLeast(LoadOf(fl[i], id, k).Plus(LoadOf(fl[j], id, k)))
  {
    LoadsDrop(fl, j, id, k);
    assert Drop(fl, j)[i] == fl[i];
    LoadsAtLeast(Drop(fl, j), i, id, k);
    hide LoadOf;
  }

  // --------------------------------------------------------------- the system

  /** `hungAt` records at which log index a write job was hung on its piece. */
  datatype State = State(
    c: Cache,
    fl: seq<Flight>,
    log: seq<Event>,
    hungAt: map<nat, nat>,
    submitted: multiset<ReadJob>,
    completed: multiset<ReadJob>,
    failed: multiset<ReadJob>)

  /** The bytes covered by the first `m` blocks of a piece. */
  function Off(m: int, blockSize: int, size: int): int {
    if m * blockSize < size then m * blockSize else size
  }

  /** The piece agrees with what the flights do with its block `k`. */
  predicate Matches(p: Piece, k: nat, l: Load)
    requires k < |p.blocks|
  {
    && p.blocks[k].refcount == l.refs
    && l.flushes == (if p.blocks[k].pending then 1 else 0)
    && p.pieceRefcount == l.pins
    && l.hashes == (if p.hashing then 1 else 0)
    && l.reading == (if p.outstandingRead then 1 else 0)
  }

  ghost predicate PieceLoads(p: Piece, id: PieceId, fl: seq<Flight>) {
    forall k :: 0 <= k < |p.blocks| ==> Matches(p, k, Loads(fl, id, k))
  }

  /** A write job waits only for a dirty block, and the log tells when it was hung. */
  ghost predicate JobsOk(p: Piece, id: PieceId, log: seq<Event>, hungAt: map<nat, nat>) {
    forall i :: 0 <= i < |p.jobs| ==>
      var j := p.jobs[i];
      && j.block < |p.blocks| && p.blocks[j.block].dirty
      && j.id in hungAt && hungAt[j.id] < |log| && log[hungAt[j.id]] == HungJob(id, j)
  }

  /** The hash context was fed blocks 0, 1, 2, ... in order. */
  predicate FedInOrder(fed: seq<Fed>) { forall k :: 0 <= k < |fed| ==> fed[k].block == k }

  /** Each of these feeds of the piece's hash is in the log. */
  ghost predicate AllLogged(fed: seq<Fed>, id: PieceId, log: seq<Event>) {
    forall k :: 0 <= k < |fed| ==> FedBlock(id, fed[k]) in log
  }

  ghost predicate FedLogged(hash: Option<PartialHash>, id: PieceId, log: seq<Event>) {
    hash.Some? ==> AllLogged(hash.value.fed, id, log)
  }

  /** The hash covers exactly the blocks fed; its offset lags while a hasher is at work. */
  predicate HashOk(p: Piece, blockSize: int) {
    p.hash.Some? ==>
      && FedInOrder(p.hash.value.fed) && |p.hash.value.fed| <= |p.blocks|
      && (!p.hashing ==> p.hash.value.offset == Off(|p.hash.value.fed|, blockSize, p.size))
  }

  /** The first block a read needs, and how many: an unaligned read may need two. */
  function FirstBlock(j: ReadJob, blockSize: int): int
    requires blockSize > 0
  {
    j.offset / blockSize
  }

  function BlocksToRead(j: ReadJob, blockSize: int): int
    requires blockSize > 0
  {
    var inBlock := j.offset % blockSize;
    if inBlock > 0 && j.size > blockSize - inBlock then 2 else 1
  }

  /** A read job asks for blocks the piece has. */
  predicate JobFits(j: ReadJob, id: PieceId, blocks: int, blockSize: int) {
    && j.piece == id && blockSize > 0
    && FirstBlock(j, blockSize) + BlocksToRead(j, blockSize) <= blocks
  }

  predicate ReadsOk(p: Piece, id: PieceId, blockSize: int) {
    && (p.readJobs != [] ==> p.outstandingRead)
    && forall i :: 0 <= i < |p.readJobs| ==> JobFits(p.readJobs[i], id, |p.blocks|, blockSize)
  }

  /** The event log shows that block index `b` was written with `data` since `mark`. */
  ghost predicate WroteSince(log: seq<Event>, mark: nat, id: PieceId, b: nat, data: nat) {
    exists m :: mark <= m < |log| && log[m] == Wrote(id, b, data)
  }

  /** The flight's blocks still hold the buffers it found there. */
  ghost predicate Holds(f: Flight, p: Piece) {
    && |f.blocks| == |f.bufs|
    && (forall i :: 0 <= i < |f.blocks| ==> f.blocks[i] < |p.blocks| && p.blocks[f.blocks[i]].buf == f.bufs[i] && f.bufs[i].Buf?)
    && (forall i, j :: 0 <= i < j < |f.blocks| ==> f.blocks[i] != f.blocks[j])
  }

  ghost predicate FlightOk(f: Flight, p: Piece, log: seq<Event>, hungAt: map<nat, nat>, blockSize: int) {
    && Holds(f, p)
    && match f.kind
       case Flushing(done, failed, mark, _) =>
         && f.blocks != [] && done <= |f.blocks| && mark <= |log|
         && (!failed ==> forall i :: 0 <= i < done ==> WroteSince(log, mark, f.id, f.blocks[i], f.bufs[i].data))
         && (forall i :: 0 <= i < |p.jobs| && p.jobs[i].block in f.blocks ==>
               p.jobs[i].id in hungAt && hungAt[p.jobs[i].id] < mark)
       case Kicking(from, at) =>
         && p.hash.Some? && from <= at <= from + |f.blocks| <= |p.blocks|
         && |p.hash.value.fed| == at && p.hash.value.offset == Off(from, blockSize, p.size)
         && forall i :: 0 <= i < |f.blocks| ==> f.blocks[i] == from + i
       case Hashing(from, at) =>
         && p.hash.Some? && from <= at <= |p.blocks|
         && |p.hash.value.fed| == at && p.hash.value.offset == Off(from, blockSize, p.size)
       case Referencing => |f.blocks| == 1
       case Reading(job) => f.blocks == [] && JobFits(job, f.id, |p.blocks|, blockSize)
       case Serving(next) => next.Some? ==> JobFits(next.value, f.id, |p.blocks|, blockSize)
  }

  /** Everything that is known of one piece and of the flights on it. */
  ghost predicate Local(p: Piece, id: PieceId, fl: seq<Flight>, log: seq<Event>, hungAt: map<nat, nat>, blockSize: int) {
    && PieceLoads(p, id, fl)
    && JobsOk(p, id, log, hungAt)
    && HashOk(p, blockSize)
    && FedLogged(p.hash, id, log)
    && ReadsOk(p, id, blockSize)
    && forall i :: 0 <= i < |fl| && fl[i].id == id ==> FlightOk(fl[i], p, log, hungAt, blockSize)
  }

  ghost predicate DigestOk(e: Event, before: seq<Event>)
    requires e.Digest?
  {
    FedInOrder(e.fed) && |e.fed| == e.blocks && AllLogged(e.fed, e.id, before)
  }

  /** A write job reported done was hung before its block was written with the
      content the cache held for it; a digest covers the whole piece in order, and each
      of its feeds was made before. */
  ghost predicate LogOk(log: seq<Event>) {
    && (forall d :: 0 <= d < |log| && log[d].Done? && log[d].ok ==>
          exists h, m :: 0 <= h < m < d && log[h] == HungJob(log[d].id, log[d].job)
                         && log[m] == Wrote(log[d].id, log[d].job.block, log[d].data))
    && (forall d :: 0 <= d < |log| && log[d].Digest? ==> DigestOk(log[d], log[..d]))
  }

  /** Digests stay what they were when the log grows. */
  lemma DigestsKept(log: seq<Event>, more: seq<Event>)
    requires LogOk(log) && forall i :: 0 <= i < |more| ==> !more[i].Digest?
    ensures var newLog := log + more; forall d :: 0 <= d < |newLog| && newLog[d].Digest? ==> DigestOk(newLog[d], newLog[..d])
  {
    hide DigestOk;
    var newLog := log + more;
    forall d | 0 <= d < |newLog| && newLog[d].Digest? ensures DigestOk(newLog[d], newLog[..d]) {
      assert d < |log| && newLog[d] == log[d] && newLog[..d] == log[..d];
    }
  }

  /** How often the flight carries a read job that is issued or about to be. */
  function Carries(f: Flight, j: ReadJob): nat {
    if f.kind == Reading(j) || f.kind == Serving(Some(j)) then 1 else 0
  }

  predicate OwnJobs(f: Flight) {
    && (f.kind.Reading? ==> f.kind.job.piece == f.id)
    && (f.kind.Serving? && f.kind.next.Some? ==> f.kind.next.value.piece == f.id)
  }

  function Issued(fl: seq<Flight>, j: ReadJob): nat {
    if fl == [] then 0 else Issued(fl[..|fl| - 1], j) + Carries(fl[|fl| - 1], j)
  }

  ghost function Queued(c: Cache, j: ReadJob): nat {
    if j.piece in c.pieces then multiset(c.pieces[j.piece].readJobs)[j] else 0
  }

  /** Every read job is issued, queued, completed or failed, and only once. */
  ghost predicate Ledger(s: State) {
    forall j :: s.submitted[j] == s.completed[j] + s.failed[j] + Issued(s.fl, j) + Queued(s.c, j)
  }

  ghost predicate Inv(s: State) {
    && CacheInv(s.c)
    && (forall id :: id in s.c.pieces ==> Local(s.c.pieces[id], id, s.fl, s.log, s.hungAt, s.c.blockSize))
    && (forall i :: 0 <= i < |s.fl| ==> s.fl[i].id in s.c.pieces)
    && LogOk(s.log)
    && Ledger(s)
  }
}
