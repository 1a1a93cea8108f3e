/** bt_peer_connection.cpp and peer_connection.cpp: which bytes of the send buffer are
    payload, and how much of it has been sent. */
module SendQueue {
  import opened ChainedBuffers

  /** A stretch of the send buffer that is payload. */
  datatype Range = Range(start: int, length: int)

  /** The ranges lie within the send buffer, one behind the other. */
  ghost predicate Ordered(ps: seq<Range>, size: int) {
    && (forall i :: 0 <= i < |ps| ==> ps[i].start >= 0 && ps[i].length > 0 && ps[i].start + ps[i].length <= size)
    && (forall i, j :: 0 <= i < j < |ps| ==> ps[i].start + ps[i].length <= ps[j].start)
  }

  /** Whether the byte at position `k` is payload. */
  ghost predicate Marked(ps: seq<Range>, k: int) {
    exists i :: 0 <= i < |ps| && ps[i].start <= k < ps[i].start + ps[i].length
  }

  /** How many of the first `n` bytes are payload. */
  ghost function Payload(ps: seq<Range>, n: nat): nat {
    if n == 0 then 0 else Payload(ps, n - 1) + if Marked(ps, n - 1) then 1 else 0
  }

  /** How much of a range lies in the first `n` bytes. */
  function Part(p: Range, n: int): int {
    if n <= p.start then 0 else if n < p.start + p.length then n - p.start else p.length
  }

  ghost function Parts(ps: seq<Range>, n: int): int {
    if ps == [] then 0 else Part(ps[0], n) + Parts(ps[1..], n)
  }

  lemma {:induction false} PartsSnoc(ps: seq<Range>, p: Range, n: int)
    ensures Parts(ps + [p], n) == Parts(ps, n) + Part(p, n)
  {
    if ps == [] {
      assert [] + [p] == [p] && [p][1..] == [];
    } else {
      assert (ps + [p])[1..] == ps[1..] + [p];
      PartsSnoc(ps[1..], p, n);
    }
  }

  lemma MarkedFirst(ps: seq<Range>, size: int, k: int)
    requires ps != [] && Ordered(ps, size)
    ensures Ordered(ps[1..], size)
    ensures Marked(ps, k) <==> ps[0].start <= k < ps[0].start + ps[0].length || Marked(ps[1..], k)
    ensures Marked(ps[1..], k) ==> k >= ps[0].start + ps[0].length
  {
    var rest := ps[1..];
    assert forall i :: 0 <= i < |rest| ==> rest[i] == ps[i + 1];
    if Marked(rest, k) {
      var i :| 0 <= i < |rest| && rest[i].start <= k < rest[i].start + rest[i].length;
      assert ps[i + 1] == rest[i];
    }
    if Marked(ps, k) && !(ps[0].start <= k < ps[0].start + ps[0].length) {
      var i :| 0 <= i < |ps| && ps[i].start <= k < ps[i].start + ps[i].length;
      assert rest[i - 1] == ps[i];
    }
  }

  /** One byte more is one more byte of the range it lies in. */
  lemma {:induction false} PartsNext(ps: seq<Range>, size: int, n: nat)
    requires Ordered(ps, size)
    ensures Parts(ps, n + 1) == Parts(ps, n) + if Marked(ps, n) then 1 else 0
  {
    if ps != [] {
      MarkedFirst(ps, size, n);
      assert ps[0].start >= 0 && ps[0].length > 0;
      hide Ordered, Marked;
      PartsNext(ps[1..], size, n);
    }
  }

  /** The ranges' parts add up to the payload. */
  lemma {:induction false} PartsPayload(ps: seq<Range>, size: int, n: nat)
    requires Ordered(ps, size)
    ensures Parts(ps, n) == Payload(ps, n)
  {
    if n == 0 {
      NoParts(ps, size);
    } else {
      PartsPayload(ps, size, n - 1);
      PartsNext(ps, size, n - 1);
    }
  }

  lemma {:induction false} NoParts(ps: seq<Range>, size: int)
    requires Ordered(ps, size)
    ensures Parts(ps, 0) == 0
  {
    if ps != [] { NoParts(ps[1..], size); }
  }

  /** A range after `n` bytes have been sent. */
  function Shifted(p: Range, n: int): Range {
    if p.start < n then Range(0, p.start + p.length - n) else Range(p.start - n, p.length)
  }

  /** The ranges that are left. */
  ghost predicate Left(ps: seq<Range>, left: seq<Range>, n: int) {
    && |left| <= |ps|
    && var gone := |ps| - |left|;
      && (forall j :: 0 <= j < gone ==> ps[j].start + ps[j].length <= n)
      && (forall j :: gone <= j < |ps| ==> ps[j].start + ps[j].length > n && left[j - gone] == Shifted(ps[j], n))
  }

  lemma LeftMarked(ps: seq<Range>, left: seq<Range>, size: int, n: nat, k: nat)
    requires Ordered(ps, size) && Left(ps, left, n)
    ensures Marked(left, k) <==> Marked(ps, k + n)
  {
    var gone := |ps| - |left|;
    if Marked(left, k) {
      var j :| 0 <= j < |left| && left[j].start <= k < left[j].start + left[j].length;
      assert left[j + gone - gone] == Shifted(ps[j + gone], n);
    }
    if Marked(ps, k + n) {
      var j :| 0 <= j < |ps| && ps[j].start <= k + n < ps[j].start + ps[j].length;
      assert left[j - gone] == Shifted(ps[j], n);
    }
  }

  lemma LeftOrdered(ps: seq<Range>, left: seq<Range>, size: int, n: nat)
    requires Ordered(ps, size) && Left(ps, left, n)
    ensures Ordered(left, size - n)
  {
    hide Left;
    assert |left| <= |ps| by { LeftLength(ps, left, n); }
    var gone := |ps| - |left|;
    forall j | 0 <= j < |left|
      ensures left[j].start >= 0 && left[j].length > 0 && left[j].start + left[j].length <= size - n
    {
      LeftAt(ps, left, n, j);
      assert ps[j + gone].length > 0;
    }
    forall i, j | 0 <= i < j < |left|
      ensures left[i].start + left[i].length <= left[j].start
    {
      LeftAt(ps, left, n, i);
      LeftAt(ps, left, n, j);
      assert ps[i + gone].start + ps[i + gone].length <= ps[j + gone].start;
    }
  }

  lemma LeftLength(ps: seq<Range>, left: seq<Range>, n: nat)
    requires Left(ps, left, n)
    ensures |left| <= |ps|
  {}

  lemma LeftAt(ps: seq<Range>, left: seq<Range>, n: nat, j: nat)
    requires Left(ps, left, n) && j < |left|
    ensures var i := j + |ps| - |left|; ps[i].start + ps[i].length > n && left[j] == Shifted(ps[i], n)
  {
    var i := j + |ps| - |left|;
    assert left[i - (|ps| - |left|)] == left[j];
  }

  /** What is sent and what is left make up the payload. */
  lemma {:induction false} PayloadSplit(ps: seq<Range>, left: seq<Range>, size: int, n: nat, m: nat)
    requires Ordered(ps, size) && Left(ps, left, n)
    ensures Payload(ps, n + m) == Payload(ps, n) + Payload(left, m)
    decreases m
  {
    if m > 0 {
      PayloadSplit(ps, left, size, n, m - 1);
      LeftMarked(ps, left, size, n, m - 1);
    }
  }

  /** Bytes behind the ranges are not payload. */
  lemma {:induction false} NoMore(ps: seq<Range>, size: nat, more: nat)
    requires Ordered(ps, size) && size <= more
    ensures Payload(ps, more) == Payload(ps, size)
    decreases more
  {
    if size < more { NoMore(ps, size, more - 1); }
  }

  lemma AtTheEnd(ps: seq<Range>, size: nat, start: nat, length: nat)
    requires Ordered(ps, size) && size <= start && length > 0
    ensures Ordered(ps + [Range(start, length)], start + length) && Ordered(ps, start + length)
  {}

  /** A range at the end of the send buffer. */
  lemma RangeAdded(ps: seq<Range>, size: nat, start: nat, length: nat)
    requires Ordered(ps, size) && size <= start && length > 0
    ensures Ordered(ps + [Range(start, length)], start + length)
    ensures Payload(ps + [Range(start, length)], start + length) == Payload(ps, size) + length
  {
    AtTheEnd(ps, size, start, length);
    hide Ordered, Payload, Parts;
    var longer := ps + [Range(start, length)];
    PartsPayload(longer, start + length, start + length);
    PartsSnoc(ps, Range(start, length), start + length);
    PartsPayload(ps, start + length, start + length);
    NoMore(ps, size, start + length);
  }

  /** check_invariant: no range begins before the end of the one before it. */
  predicate InOrder(ps: seq<Range>) { forall i :: 0 <= i < |ps| - 1 ==> ps[i].start + ps[i].length <= ps[i + 1].start }

  lemma OrderedInOrder(ps: seq<Range>, size: int)
    requires Ordered(ps, size)
    ensures InOrder(ps)
  {}

  /** The ranges mark exactly the bytes that are piece data. */
  ghost predicate Marks(ps: seq<Range>, isData: seq<bool>) {
    Ordered(ps, |isData|) && forall k :: 0 <= k < |isData| ==> (Marked(ps, k) <==> isData[k])
  }

  /** Other bytes at the end need no range. */
  lemma MarksOther(ps: seq<Range>, isData: seq<bool>, more: nat)
    requires Marks(ps, isData)
    ensures Marks(ps, isData + seq(more, _ => false)) && Payload(ps, |isData| + more) == Payload(ps, |isData|)
  {
    NoMore(ps, |isData|, |isData| + more);
    hide Payload;
  }

  lemma MarksData(ps: seq<Range>, isData: seq<bool>, length: nat)
    requires Marks(ps, isData) && length > 0
    ensures Marks(ps + [Range(|isData|, length)], isData + seq(length, _ => true))
    ensures Payload(ps + [Range(|isData|, length)], |isData| + length) == Payload(ps, |isData|) + length
  {
    RangeAdded(ps, |isData|, |isData|, length);
    hide Payload;
    var longer, all := ps + [Range(|isData|, length)], isData + seq(length, _ => true);
    forall k | 0 <= k < |all| ensures Marked(longer, k) <==> all[k] {
      MarkedSnoc(ps, Range(|isData|, length), k);
    }
  }

  lemma MarkedSnoc(ps: seq<Range>, p: Range, k: int)
    ensures Marked(ps + [p], k) <==> Marked(ps, k) || p.start <= k < p.start + p.length
  {
    var longer := ps + [p];
    if Marked(ps, k) {
      var i :| 0 <= i < |ps| && ps[i].start <= k < ps[i].start + ps[i].length;
      assert longer[i] == ps[i];
    }
    if p.start <= k < p.start + p.length { assert longer[|ps|] == p; }
    if Marked(longer, k) {
      var i :| 0 <= i < |longer| && longer[i].start <= k < longer[i].start + longer[i].length;
      assert i < |ps| ==> ps[i] == longer[i];
    }
  }

  /** Ranges of bytes that are gone mark nothing that is piece data. */
  lemma StrayRanges(ps: seq<Range>, size: int, before: nat, length: nat)
    requires Ordered(ps, size) && ps != [] && length > 0
    ensures !Marks(ps + [Range(before, length)], seq(before, _ => false) + seq(length, _ => true))
    ensures before == 0 ==> !InOrder(ps + [Range(before, length)])
    ensures InOrder(ps + [Range(before, length)]) <==> End(ps) <= before
  {
    var longer, all := ps + [Range(before, length)], seq(before, _ => false) + seq(length, _ => true);
    assert longer[0] == ps[0] && longer[|ps|] == Range(before, length) && longer[|ps| - 1] == ps[|ps| - 1];
    if Ordered(longer, |all|) {
      assert longer[0].start + longer[0].length <= longer[|ps|].start;
      assert Marked(longer, ps[0].start);
    }
    OrderedInOrder(ps, size);
    forall i | 0 <= i < |longer| - 2 ensures longer[i].start + longer[i].length <= longer[i + 1].start {
      assert longer[i] == ps[i] && longer[i + 1] == ps[i + 1];
    }
  }

  /** Where the last range ends. */
  function End(ps: seq<Range>): int
    requires ps != []
  {
    ps[|ps| - 1].start + ps[|ps| - 1].length
  }

  class BtPeerConnection {
    const sendBuffer: ChainedBuffer
    var payloads: seq<Range>
    /** A write is outstanding (bw_network of the upload channel). */
    var writing: bool
    var disconnecting: bool
    /** The statistics: bytes reported as sent. */
    var payloadSent: int
    var protocolSent: int
    ghost var written: int
    /** Which bytes of the send buffer are piece data. */
    ghost var isData: seq<bool>

    /** The ranges mark the piece data, and what is reported and what is queued make up
        all that was written. */
    ghost predicate Agree()
      reads this
    {
      Marks(payloads, isData) && payloadSent + Payload(payloads, |isData|) == written
    }

    /** The markers are right until the connection is given up. */
    ghost predicate Valid()
      reads this, sendBuffer
    {
      sendBuffer.Valid() && |isData| == sendBuffer.bytes && (!disconnecting ==> Agree())
    }

    constructor ()
      ensures Valid() && fresh(sendBuffer) && payloads == [] && sendBuffer.vec == [] && !writing && !disconnecting
      ensures payloadSent == protocolSent == written == 0
    {
      sendBuffer := new ChainedBuffer();
      payloads, isData := [], [];
      writing, disconnecting := false, false;
      payloadSent, protocolSent, written := 0, 0, 0;
    }

    /** The first time it is called it frees the send buffer, unless a write is
        outstanding; the payload markers stay. */
    method Disconnect()
      requires sendBuffer.Valid() && |isData| == sendBuffer.bytes
      modifies this`disconnecting, this`isData, sendBuffer
      ensures Valid() && disconnecting
      ensures if old(disconnecting) || writing then isData == old(isData) && sendBuffer.vec == old(sendBuffer.vec)
              else isData == [] && sendBuffer.vec == []
      ensures old(Agree()) ==> (Agree() <==> old(disconnecting) || writing || payloads == [])
    {
      hide Contents, Capacity, Ids, Accounted;
      if disconnecting { return; }
      if !writing {
        sendBuffer.Clear();
        isData := [];
      }
      disconnecting := true;
      Nothing();
      Cleared(payloads, |old(isData)|);
    }

    /** Starts a write if none is outstanding. `limit` is what quota and send barrier
        allow to send; it is 0 while connecting or corked. */
    method SetupSend(limit: nat)
      requires Valid()
      modifies this`writing
      ensures Valid() && (old(Agree()) ==> Agree())
      ensures writing <==> old(writing) || (!disconnecting && sendBuffer.bytes > 0 && limit > 0)
    {
      if disconnecting || writing || sendBuffer.bytes == 0 || limit == 0 { return; }
      writing := true;
    }

    /** Queues bytes: first in what room the last buffer has, then in new buffers of
        `size` bytes, of which the session has those named by `pool` to give. When they
        run out the connection is given up. */
    method SendBuffer(data: seq<Byte>, size: nat, pool: seq<nat>, limit: nat) returns (ok: bool, ghost taken: nat, ghost cleared: bool)
      requires Valid() && size > 0
      modifies this`disconnecting, this`writing, this`isData, sendBuffer
      ensures Valid() && taken <= |data|
      ensures ok <==> |data| <= Space(old(sendBuffer.vec)) + |pool| * size
      ensures taken == if ok then |data| else Space(old(sendBuffer.vec)) + |pool| * size
      ensures disconnecting <==> old(disconnecting) || !ok
      ensures cleared <==> !ok && !old(disconnecting) && !old(writing)
      ensures Contents(sendBuffer.vec) == if cleared then [] else Contents(old(sendBuffer.vec)) + data[..taken]
      ensures isData == if cleared then [] else old(isData) + seq(taken, _ => false)
      ensures writing <==> old(writing) || (ok && |data| > Space(old(sendBuffer.vec)) && !disconnecting && limit > 0)
      ensures old(Agree()) ==> (Agree() <==> !cleared || payloads == [])
    {
      hide Payload, Marks, Contents, Capacity, Ids, Accounted;
      var free := sendBuffer.SpaceInLastBuffer();
      ok, taken := Fill(data, size, pool);
      ghost var agreed := old(Agree());
      if agreed { MarksOther(payloads, old(isData), taken); }
      isData := isData + seq(taken, _ => false);
      cleared := !ok && !disconnecting && !writing;
      if !ok {
        Disconnect();
        Nothing();
        return;
      }
      if |data| > free { SetupSend(limit); }
    }

    /** The copying of send_buffer. */
    method Fill(data: seq<Byte>, size: nat, pool: seq<nat>) returns (ok: bool, ghost taken: nat)
      requires sendBuffer.Valid() && size > 0
      modifies sendBuffer
      ensures sendBuffer.Valid() && taken <= |data| && sendBuffer.bytes == old(sendBuffer.bytes) + taken
      ensures ok <==> |data| <= Space(old(sendBuffer.vec)) + |pool| * size
      ensures taken == if ok then |data| else Space(old(sendBuffer.vec)) + |pool| * size
      ensures Contents(sendBuffer.vec) == Contents(old(sendBuffer.vec)) + data[..taken]
    {
      hide Contents, Capacity, Ids, Accounted, Total;
      ghost var was := sendBuffer.vec;
      TotalGrows(0, |pool|, size);
      var free := sendBuffer.SpaceInLastBuffer();
      if free > |data| { free := |data|; }
      taken := 0;
      assert data[..0] == [] && Contents(was) + data[..0] == Contents(was);
      if free > 0 {
        var done := sendBuffer.Append(data[..free]);
        taken := free;
      }
      var rest := data[free..];
      var next := 0;
      ghost var room := Space(was);
      ok := true;
      while rest != []
        invariant free <= taken <= |data| && rest == data[taken..] && sendBuffer.Valid() && 0 <= next <= |pool|
        invariant sendBuffer.bytes == old(sendBuffer.bytes) + taken
        invariant Contents(sendBuffer.vec) == Contents(was) + data[..taken]
        invariant ok && room == Space(was) + Total(next, size) && taken <= room && (rest != [] ==> taken == room)
        decreases |rest|
      {
        if next == |pool| {
          ok := false;
          break;
        }
        var n := if size < |rest| then size else |rest|;
        NewBuffer(pool[next], rest[..n], size);
        assert data[..taken + n] == data[..taken] + rest[..n];
        TotalGrows(next, |pool|, size);
        rest := rest[n..];
        taken := taken + n;
        next := next + 1;
        room := room + size;
      }
      TotalGrows(next, |pool|, size);
    }

    /** Queues bytes in a buffer of the session's. */
    method NewBuffer(id: nat, data: seq<Byte>, size: nat)
      requires sendBuffer.Valid() && |data| <= size
      modifies sendBuffer
      ensures sendBuffer.Valid() && sendBuffer.bytes == old(sendBuffer.bytes) + |data|
      ensures Contents(sendBuffer.vec) == Contents(old(sendBuffer.vec)) + data
    {
      hide Contents, Capacity, Ids, Accounted;
      var buffer := data + seq(size - |data|, _ => 0);
      sendBuffer.AppendBuffer(id, buffer, |data|);
      assert buffer[..|data|] == data;
    }

    /** The header of a piece message and the hash list of a merkle torrent. `cleared`
        tells that buffers ran out while no write was outstanding. */
    method WriteHeader(header: seq<Byte>, hashes: seq<Byte>, size: nat, pool: seq<nat>, pool2: seq<nat>, limit: nat)
      returns (ok: bool, ghost cleared: bool)
      requires Valid() && size > 0
      modifies this`disconnecting, this`writing, this`isData, sendBuffer
      ensures Valid() && (disconnecting <==> old(disconnecting) || !ok)
      ensures ok ==> Contents(sendBuffer.vec) == Contents(old(sendBuffer.vec)) + header + hashes
      ensures !cleared ==> Contents(old(sendBuffer.vec)) <= Contents(sendBuffer.vec) && (old(Agree()) ==> Agree())
      ensures cleared ==> isData == seq(|isData|, _ => false) && (hashes == [] ==> isData == [])
      ensures cleared ==> !ok && !old(disconnecting) && !old(writing)
      ensures hashes == [] ==> (ok <==> |header| <= Space(old(sendBuffer.vec)) + |pool| * size)
      ensures hashes == [] ==> (cleared <==> !ok && !old(disconnecting) && !old(writing))
      ensures limit == 0 ==> writing == old(writing)
      ensures (old(writing) ==> writing) && (writing ==> old(writing) || (limit > 0 && !old(disconnecting)))
      ensures !ok && hashes == [] ==> writing == old(writing)
    {
      hide Payload, Marks, Contents, Capacity, Ids, Accounted, Space;
      ghost var first, second, cleared2;
      ok, first, cleared := SendBuffer(header, size, pool, limit);
      assert ok ==> header[..first] == header;
      if hashes != [] {
        var more;
        more, second, cleared2 := SendBuffer(hashes, size, pool2, limit);
        assert more ==> hashes[..second] == hashes;
        ok := ok && more;
        cleared := cleared || cleared2;
      }
    }

    /** Queues a piece message: its header, the hash list of a merkle torrent if there is
        one, and the piece data, which is payload. `cleared` tells that buffers ran out
        while no write was outstanding: what was queued before is gone, the ranges of it
        are not. The ranges then are in order only if none was queued, or if the hash
        list, queued behind nothing, happens to be longer than they reach. */
    method WritePiece(header: seq<Byte>, hashes: seq<Byte>, id: nat, piece: seq<Byte>, size: nat, pool: seq<nat>, pool2: seq<nat>, limit: nat)
      returns (ok: bool, ghost cleared: bool)
      requires Valid() && size > 0 && piece != []
      modifies this, sendBuffer
      ensures Valid() && (disconnecting <==> old(disconnecting) || !ok)
      ensures written == old(written) + |piece| && payloadSent == old(payloadSent) && protocolSent == old(protocolSent)
      ensures payloads == old(payloads) + [Range(sendBuffer.bytes - |piece|, |piece|)]
      ensures ok ==> Contents(sendBuffer.vec) == Contents(old(sendBuffer.vec)) + header + hashes + piece
      ensures !cleared ==> Contents(old(sendBuffer.vec)) <= Contents(sendBuffer.vec)
      ensures cleared ==> !ok && !old(disconnecting) && !old(writing) && (hashes == [] ==> Contents(sendBuffer.vec) == piece)
      ensures hashes == [] ==> (ok <==> |header| <= Space(old(sendBuffer.vec)) + |pool| * size)
      ensures hashes == [] ==> (cleared <==> !ok && !old(disconnecting) && !old(writing))
      ensures old(Agree()) ==> (Agree() <==> !cleared || old(payloads) == [])
      ensures old(Agree()) ==>
        (InOrder(payloads) <==> !cleared || old(payloads) == [] || (hashes != [] && End(old(payloads)) <= sendBuffer.bytes - |piece|))
      ensures Space(sendBuffer.vec) == 0 && (limit == 0 ==> writing == old(writing))
      ensures ok ==> (writing <==> old(writing) || (limit > 0 && !old(disconnecting)))
      ensures !ok ==> (if hashes == [] then writing == old(writing) else old(writing) ==> writing)
    {
      hide Ordered, Payload, Marks, InOrder, Contents, Capacity, Ids, Accounted;
      ok, cleared := WriteHeader(header, hashes, size, pool, pool2, limit);
      ghost var queued := isData;
      sendBuffer.AppendBuffer(id, piece, |piece|);
      assert piece[..|piece|] == piece;
      payloads := payloads + [Range(sendBuffer.bytes - |piece|, |piece|)];
      written := written + |piece|;
      isData := isData + seq(|piece|, _ => true);
      if old(Agree()) { PieceMarked(old(payloads), old(isData), queued, |piece|, cleared, payloadSent, old(written), hashes == []); }
      assert |queued| == 0 ==> [] + piece == piece;
      SetupSend(limit);
    }

    /** The socket has taken the first `count` bytes of the send buffer, or failed. After
        an error, and when the connection is being given up, nothing is counted; the rest
        of the queue is freed, unless the error comes after the connection was given up. */
    method OnSendData(error: bool, count: nat, limit: nat)
      requires Valid() && writing && count <= sendBuffer.bytes
      modifies this, sendBuffer
      ensures Valid() && written == old(written) && (disconnecting <==> old(disconnecting) || error)
      ensures error || old(disconnecting) ==>
        && payloads == old(payloads) && payloadSent == old(payloadSent) && protocolSent == old(protocolSent) && !writing
        && Contents(sendBuffer.vec) == if error && old(disconnecting) then Contents(old(sendBuffer.vec))[count..] else []
      ensures !error && !old(disconnecting) ==>
        && Agree() && Contents(sendBuffer.vec) == Contents(old(sendBuffer.vec))[count..] && isData == old(isData)[count..]
        && payloadSent == old(payloadSent) + Payload(old(payloads), count)
        && protocolSent == old(protocolSent) + count - Payload(old(payloads), count)
      ensures !error && !old(disconnecting) ==> (writing <==> sendBuffer.bytes > 0 && limit > 0)
      ensures !error && !old(disconnecting) ==> forall k: nat :: Marked(payloads, k) <==> Marked(old(payloads), k + count)
    {
      hide Ordered, Payload, Marked, Left, Marks, Contents, Capacity, Ids, Accounted;
      ghost var size := |isData|;
      ghost var ps, data0 := payloads, isData;
      sendBuffer.PopFront(count);
      isData := isData[count..];
      writing := false;
      if error {
        Disconnect();
        Nothing();
        return;
      }
      if disconnecting {
        sendBuffer.Clear();
        isData := [];
        Nothing();
        return;
      }
      MarksOrdered(ps, data0);
      OnSent(false, count, size);
      PayloadSplit(ps, payloads, size, count, size - count);
      MarksLeft(ps, payloads, data0, count);
      forall k: nat
        ensures Marked(payloads, k) <==> Marked(ps, k + count)
      {
        LeftMarked(ps, payloads, size, count, k);
      }
      SetupSend(limit);
    }

    /** Counts what has been sent, and moves the payload markers. */
    method OnSent(error: bool, count: nat, ghost size: int)
      requires Ordered(payloads, size)
      modifies this`payloads, this`payloadSent, this`protocolSent
      ensures error ==> payloads == old(payloads) && payloadSent == old(payloadSent) && protocolSent == old(protocolSent) + count
      ensures !error ==>
        && Left(old(payloads), payloads, count)
        && payloadSent == old(payloadSent) + Payload(old(payloads), count)
        && protocolSent == old(protocolSent) + count - Payload(old(payloads), count)
    {
      if error {
        protocolSent := protocolSent + count;
        return;
      }
      var amount := 0;
      if payloads != [] {
        amount := MoveMarkers(count, size);
      }
      PartsPayload(old(payloads), size, count);
      payloadSent := payloadSent + amount;
      protocolSent := protocolSent + (count - amount);
    }

    method MoveMarkers(count: nat, ghost size: int) returns (amount: int)
      requires Ordered(payloads, size)
      modifies this`payloads
      ensures Left(old(payloads), payloads, count) && amount == Parts(old(payloads), count)
    {
      hide Parts;
      ghost var ps := payloads;
      amount := 0;
      var firstToKeep := 0;
      NoRanges(ps, count);
      for i := 0 to |payloads|
        invariant |payloads| == |ps| && 0 <= firstToKeep <= i
        invariant payloads[i..] == ps[i..]
        invariant forall j :: 0 <= j < firstToKeep ==> ps[j].start + ps[j].length <= count
        invariant forall j :: firstToKeep <= j < i ==> ps[j].start + ps[j].length > count && payloads[j] == Shifted(ps[j], count)
        invariant amount == Parts(ps[..i], count)
      {
        assert payloads[i] == payloads[i..][0] == ps[i];
        assert ps[..i + 1] == ps[..i] + [ps[i]];
        PartsSnoc(ps[..i], ps[i], count);
        GoneFirst(ps, size, firstToKeep, i, count);
        var p := payloads[i].(start := payloads[i].start - count);
        if p.start < 0 {
          if p.start + p.length <= 0 {
            amount := amount + p.length;
            assert firstToKeep == i;
            firstToKeep := firstToKeep + 1;
          } else {
            amount := amount - p.start;
            p := Range(0, p.length + p.start);
          }
        }
        payloads := payloads[i := p];
        assert payloads[i + 1..] == ps[i + 1..];
      }
      assert ps[..|ps|] == ps;
      payloads := payloads[firstToKeep..];
    }
  }

  /** Behind a range that has not been sent entirely, none has been sent at all. */
  lemma GoneFirst(ps: seq<Range>, size: int, keep: nat, i: nat, n: int)
    requires Ordered(ps, size) && keep <= i < |ps|
    requires forall j :: keep <= j < i ==> ps[j].start + ps[j].length > n
    ensures ps[i].start < n ==> keep == i
  {
    if keep < i { assert ps[i - 1].start + ps[i - 1].length <= ps[i].start; }
  }

  lemma NoRanges(ps: seq<Range>, n: int)
    ensures Parts(ps[..0], n) == 0
  {}

  /** What `n` buffers hold. */
  function Total(n: nat, size: nat): nat { n * size }

  lemma TotalGrows(a: nat, b: nat, size: nat)
    requires a <= b
    ensures Total(0, size) == 0 && Total(a, size) <= Total(b, size) == b * size && Total(a + 1, size) == Total(a, size) + size
  {}

  lemma Cleared(ps: seq<Range>, size: nat)
    ensures Marks(ps, []) <==> ps == []
    ensures Payload(ps, 0) == 0 && (ps == [] ==> Payload(ps, size) == 0)
  {
    if ps == [] { NoMore(ps, 0, size); }
    if ps != [] {
      var p := ps[0];
      assert Ordered(ps, 0) ==> p.start >= 0 && p.length > 0 && p.start + p.length <= 0;
    }
  }

  lemma MarksOrdered(ps: seq<Range>, isData: seq<bool>)
    requires Marks(ps, isData)
    ensures Ordered(ps, |isData|)
  {}

  /** The marks move with the bytes. */
  lemma MarksLeft(ps: seq<Range>, left: seq<Range>, isData: seq<bool>, n: nat)
    requires Marks(ps, isData) && Left(ps, left, n) && n <= |isData|
    ensures Marks(left, isData[n..])
  {
    LeftOrdered(ps, left, |isData|, n);
    hide Left, Ordered;
    forall k | 0 <= k < |isData| - n ensures Marked(left, k) <==> isData[n..][k] {
      MarksOrdered(ps, isData);
      LeftMarked(ps, left, |isData|, n, k);
    }
  }

  /** The new range and the markers: `queued` tells of the bytes in front of the piece. */
  lemma PieceMarked(ps: seq<Range>, before: seq<bool>, queued: seq<bool>, length: nat, cleared: bool, sent: int, written: int,
                    alone: bool)
    requires Marks(ps, before) && sent + Payload(ps, |before|) == written && length > 0
    requires cleared && alone ==> queued == []
    requires if cleared then queued == seq(|queued|, _ => false) else Marks(ps, queued) && sent + Payload(ps, |queued|) == written
    ensures var longer, all := ps + [Range(|queued|, length)], queued + seq(length, _ => true);
      && ((Marks(longer, all) && sent + Payload(longer, |all|) == written + length) <==> !cleared || ps == [])
      && (InOrder(longer) <==> !cleared || ps == [] || (!alone && End(ps) <= |queued|))
  {
    hide Payload, InOrder;
    var longer, all := ps + [Range(|queued|, length)], queued + seq(length, _ => true);
    if cleared && ps != [] {
      StrayRanges(ps, |before|, |queued|, length);
    } else {
      if cleared { NoneMarked(queued); NoMore([], 0, |before|); NoMore([], 0, |queued|); }
      MarksData(ps, queued, length);
      OrderedInOrder(longer, |all|);
    }
  }

  lemma NoneMarked(isData: seq<bool>)
    requires isData == seq(|isData|, _ => false)
    ensures Marks([], isData)
  {}

  /** A piece is queued and waits; for the next one there is no buffer left. The list of
      ranges is then out of order. */
  method OutOfBuffers() returns (c: BtPeerConnection)
    ensures c.payloads == [Range(13, 16384), Range(0, 16384)] && !InOrder(c.payloads)
  {
    hide Contents, Capacity, Ids, Accounted, Marks, Payload;
    c := new BtPeerConnection();
    var header, piece: seq<Byte> := seq(13, _ => 7), seq(16384, _ => 0);
    Nothing();
    var ok, cleared := c.WritePiece(header, [], 1, piece, 13, [0], [], 0);
    ok, cleared := c.WritePiece(header, [], 2, piece, 13, [], [], 0);
  }
}
