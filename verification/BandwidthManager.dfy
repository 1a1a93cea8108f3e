/** The bandwidth manager: requests queue up for quota, and every so often the quota of
    all channels is shared out among them. */
module BandwidthManagers {
  import opened BandwidthChannels
  import opened BandwidthSums

  /** Bytes granted to a peer. */
  datatype Delivery = Delivery(peer: nat, amount: int)

  /** The requests whose peers stay, and those whose peers disconnect. */
  function Live(q: seq<Request>, gone: set<nat>): seq<Request> {
    if q == [] then [] else
      var r := q[|q| - 1];
      if r.peer in gone then Live(q[..|q| - 1], gone) else Live(q[..|q| - 1], gone) + [r]
  }

  function Gone(q: seq<Request>, gone: set<nat>): seq<Request> {
    if q == [] then [] else
      var r := q[|q| - 1];
      if r.peer in gone then Gone(q[..|q| - 1], gone) + [r] else Gone(q[..|q| - 1], gone)
  }

  /** The requests after their grants. */
  function Granted(q: seq<Request>, grants: seq<int>): seq<Request>
    requires |q| == |grants|
  {
    if q == [] then [] else
      var r := q[|q| - 1];
      Granted(q[..|q| - 1], grants[..|q| - 1]) + [r.(granted := r.granted + grants[|q| - 1], ttl := r.ttl - 1)]
  }

  /** A request leaves the queue when it is satisfied, or has waited long enough and got
      something. */
  predicate Finished(r: Request) { r.granted == r.size || (r.ttl <= 0 && r.granted > 0) }

  function FinishedOf(q: seq<Request>): seq<Request> {
    if q == [] then [] else
      var r := q[|q| - 1];
      if Finished(r) then FinishedOf(q[..|q| - 1]) + [r] else FinishedOf(q[..|q| - 1])
  }

  function WaitingOf(q: seq<Request>): seq<Request> {
    if q == [] then [] else
      var r := q[|q| - 1];
      if Finished(r) then WaitingOf(q[..|q| - 1]) else WaitingOf(q[..|q| - 1]) + [r]
  }

  /** Peers are told in reverse order. */
  function Told(q: seq<Request>): seq<Delivery> {
    if q == [] then [] else [Delivery(q[|q| - 1].peer, q[|q| - 1].granted)] + Told(q[..|q| - 1])
  }

  function Emptied(q: seq<Request>): seq<Request> {
    if q == [] then [] else Emptied(q[..|q| - 1]) + [q[|q| - 1].(granted := 0)]
  }

  ghost predicate Queued(r: Request, chans: set<Channel>) {
    && 0 <= r.granted < r.size && r.priority > 0 && 0 < |r.channels| <= MAX_CHANNELS
    && forall c :: c in r.channels ==> c in chans
  }

  ghost predicate Known(q: seq<Request>, chans: set<Channel>) {
    forall r :: r in q ==> r.granted >= 0 && forall c :: c in r.channels ==> c in chans
  }

  ghost function ChansOf(q: seq<Request>): set<Channel> { set r, c | r in q && c in r.channels :: c }

  ghost predicate Distinct(chs: seq<Channel>) { forall i, j :: 0 <= i < j < |chs| ==> chs[i] != chs[j] }

  lemma LiveSnoc(q: seq<Request>, k: nat, gone: set<nat>)
    requires k < |q|
    ensures Live(q[..k + 1], gone) == Live(q[..k], gone) + (if q[k].peer in gone then [] else [q[k]])
    ensures Gone(q[..k + 1], gone) == Gone(q[..k], gone) + (if q[k].peer in gone then [q[k]] else [])
  {
    assert q[..k + 1][..k] == q[..k];
  }

  method ZeroTmp(chs: seq<Channel>)
    modifies (set c | c in chs)`tmp
    ensures forall c :: c in chs ==> c.tmp == 0
  {
    for j := 0 to |chs|
      invariant forall c :: c in chs[..j] ==> c.tmp == 0
    {
      chs[j].tmp := 0;
      assert chs[..j + 1] == chs[..j] + [chs[j]];
    }
    assert chs[..|chs|] == chs;
  }

  /** The first loop of update_quotas: requests of disconnecting peers leave the queue
      and their quota goes back; the other requests' channels are reset. */
  method DropGone(q: seq<Request>, bytes: int, gone: set<nat>, ghost chans: set<Channel>)
    returns (live: seq<Request>, lost: seq<Request>, queued: int)
    requires forall r :: r in q ==> Queued(r, chans)
    modifies chans`quotaLeft, chans`returned, chans`tmp
    ensures live == Live(q, gone) && lost == Gone(q, gone) && queued - QueuedBytes(live) == bytes - QueuedBytes(q)
    ensures forall c :: c in chans ==> c.quotaLeft == old(c.quotaLeft) + (if c.limit == 0 then 0 else Back(lost, c))
    ensures forall c :: c in chans ==> c.returned == old(c.returned) + (if c.limit == 0 then 0 else Back(lost, c))
    ensures forall c :: c in ChansOf(live) ==> c.tmp == 0
    ensures forall r :: r in live || r in lost ==> r in q
  {
    hide Live, Gone, Back, QueuedBytes, Uses, Queued;
    DropNone(q, gone);
    live, lost, queued := q, [], bytes;
    var i := 0;
    ghost var k := 0;
    assert q[..0] == [];
    while i < |live|
      invariant 0 <= i <= |live| && 0 <= k <= |q| && live[i..] == q[k..]
      invariant live[..i] == Live(q[..k], gone) && lost == Gone(q[..k], gone)
      invariant queued - QueuedBytes(live) == bytes - QueuedBytes(q)
      invariant forall c :: c in chans ==> c.quotaLeft == old(c.quotaLeft) + (if c.limit == 0 then 0 else Back(lost, c))
      invariant forall c :: c in chans ==> c.returned == old(c.returned) + (if c.limit == 0 then 0 else Back(lost, c))
      invariant forall r, c :: r in live[..i] && c in r.channels ==> c.tmp == 0
      invariant forall r :: r in live || r in lost ==> r in q
      decreases |live| - i
    {
      var r := live[i];
      assert r == live[i..][0] == q[k] && r in q && live[i..][1..] == live[i + 1..] && q[k..][1..] == q[k + 1..];
      LiveSnoc(q, k, gone);
      if r.peer in gone {
        RemoveQueued(live, i);
        queued := queued - (r.size - r.granted);
        forall c | c in chans ensures BackGrows(lost, r, c) { BackSnoc(lost, r, c); }
        QueuedFacts(r, chans);
        ReturnAll(r.channels, r.granted);
        lost := lost + [r];
        live := live[..i] + live[i + 1..];
      } else {
        QueuedFacts(r, chans);
        ZeroTmp(r.channels);
        assert live[..i + 1] == live[..i] + [r];
        i := i + 1;
      }
      k := k + 1;
    }
    assert live[..i] == live && q[..k] == q;
  }

  lemma DropNone(q: seq<Request>, gone: set<nat>)
    ensures Live(q[..0], gone) == [] && Gone(q[..0], gone) == [] && forall c :: Back([], c) == 0
  {}

  ghost predicate BackGrows(lost: seq<Request>, r: Request, c: Channel) {
    Back(lost + [r], c) == Back(lost, c) + (if c in r.channels then Uses(r.channels, c) * r.granted else 0)
  }

  lemma BackSnoc(lost: seq<Request>, r: Request, c: Channel)
    ensures BackGrows(lost, r, c)
  {
    HeldSnoc(lost, r, c);
    UsesZero(r.channels, c);
  }

  lemma QueuedFacts(r: Request, chans: set<Channel>)
    requires Queued(r, chans)
    ensures 0 <= r.granted < r.size && r.priority > 0 && forall c :: c in r.channels ==> c in chans
  {}

  lemma RemoveQueued(q: seq<Request>, i: nat)
    requires i < |q|
    ensures QueuedBytes(q[..i] + q[i + 1..]) == QueuedBytes(q) - (q[i].size - q[i].granted)
  {
    hide QueuedBytes;
    assert q == q[..i] + [q[i]] + q[i + 1..];
    QueuedJoin(q[..i] + [q[i]], q[i + 1..]);
    QueuedSnoc(q[..i], q[i]);
    QueuedJoin(q[..i], q[i + 1..]);
  }

  /** One request adds its priority to its channels; those that had none yet are listed. */
  method WeighOne(r: Request, found: seq<Channel>, ghost all: set<Channel>) returns (channels: seq<Channel>)
    requires r.priority > 0 && (forall c :: c in r.channels ==> c in all) && Distinct(found)
    requires forall c :: c in found ==> c in all
    requires forall c :: c in all ==> c.tmp >= 0 && (c in found <==> c.tmp > 0)
    modifies all`tmp
    ensures Distinct(channels) && (forall c :: c in channels ==> c in all)
    ensures forall c :: c in channels <==> c in found || c in r.channels
    ensures forall c :: c in all ==> c.tmp == old(c.tmp) + Uses(r.channels, c) * r.priority
    ensures forall c :: c in all ==> c.tmp >= 0 && (c in channels <==> c.tmp > 0)
  {
    channels := found;
    var chs := r.channels;
    assert chs[..0] == [];
    for j := 0 to |chs|
      invariant Distinct(channels) && (forall c :: c in channels ==> c in all)
      invariant forall c :: c in channels <==> c in found || c in chs[..j]
      invariant forall c :: c in all ==> c.tmp == old(c.tmp) + Uses(chs[..j], c) * r.priority
      invariant forall c :: c in all ==> c.tmp >= 0 && (c in channels <==> c.tmp > 0)
    {
      assert chs[..j + 1][..j] == chs[..j] && chs[..j + 1] == chs[..j] + [chs[j]];
      var c := chs[j];
      forall x | x in all ensures (Uses(chs[..j], x) + 1) * r.priority == Uses(chs[..j], x) * r.priority + r.priority {}
      if c.tmp == 0 { channels := channels + [c]; }
      c.tmp := c.tmp + r.priority;
    }
    assert chs[..|chs|] == chs;
  }

  /** The second loop of update_quotas: every channel in use is listed once, and knows
      the sum of the priorities that compete for it. */
  method Weigh(q: seq<Request>) returns (channels: seq<Channel>)
    requires forall r :: r in q ==> r.priority > 0
    requires forall c :: c in ChansOf(q) ==> c.tmp == 0
    modifies ChansOf(q)`tmp
    ensures Distinct(channels) && forall c :: c in channels <==> c in ChansOf(q)
    ensures forall c :: c in ChansOf(q) ==> c.tmp == Weight(q, c) && c.tmp > 0
  {
    channels := [];
    assert q[..0] == [];
    for i := 0 to |q|
      invariant Distinct(channels) && (forall c :: c in channels <==> c in ChansOf(q[..i]))
      invariant forall c :: c in ChansOf(q) ==> c.tmp == Weight(q[..i], c) >= 0 && (c in channels <==> c.tmp > 0)
    {
      var r := q[i];
      assert q[..i + 1] == q[..i] + [r] && r in q;
      assert forall c :: c in ChansOf(q[..i + 1]) <==> c in ChansOf(q[..i]) || c in r.channels;
      assert forall c :: c in ChansOf(q[..i]) ==> c in ChansOf(q);
      forall c | c in ChansOf(q) ensures Weight(q[..i + 1], c) == Weight(q[..i], c) + Uses(r.channels, c) * r.priority {
        HeldSnoc(q[..i], r, c);
      }
      channels := WeighOne(r, channels, ChansOf(q));
    }
    assert q[..|q|] == q;
  }

  /** Every listed channel is refilled, each exactly once. */
  method Refill(channels: seq<Channel>, dt: int)
    requires Distinct(channels) && dt >= 0 && forall c :: c in channels ==> 0 <= c.limit < INF
    modifies (set c | c in channels)`quotaLeft, (set c | c in channels)`distributeQuota
    ensures forall c :: c in channels ==> c.quotaLeft == Refilled(old(c.quotaLeft), c.limit, dt)
    ensures forall c :: c in channels ==> c.distributeQuota == if c.limit == 0 then old(c.distributeQuota) else Max(c.quotaLeft, 0)
  {
    for i := 0 to |channels|
      invariant forall j :: 0 <= j < i ==> channels[j].quotaLeft == Refilled(old(channels[j].quotaLeft), channels[j].limit, dt)
      invariant forall j :: 0 <= j < i ==>
        channels[j].distributeQuota == if channels[j].limit == 0 then old(channels[j].distributeQuota) else Max(channels[j].quotaLeft, 0)
      invariant forall j :: i <= j < |channels| ==>
        channels[j].quotaLeft == old(channels[j].quotaLeft) && channels[j].distributeQuota == old(channels[j].distributeQuota)
    {
      assert channels[i] in channels;
      channels[i].UpdateQuota(dt);
    }
  }

  lemma GrantedSnoc(q: seq<Request>, k: nat, grants: seq<int>, g: int)
    requires k < |q| && |grants| == k
    ensures var r := q[k].(granted := q[k].granted + g, ttl := q[k].ttl - 1);
      && Granted(q[..k + 1], grants + [g]) == Granted(q[..k], grants) + [r]
      && FinishedOf(Granted(q[..k], grants) + [r]) == FinishedOf(Granted(q[..k], grants)) + (if Finished(r) then [r] else [])
      && WaitingOf(Granted(q[..k], grants) + [r]) == WaitingOf(Granted(q[..k], grants)) + (if Finished(r) then [] else [r])
  {
    assert q[..k + 1][..k] == q[..k] && (grants + [g])[..k] == grants;
    var r := q[k].(granted := q[k].granted + g, ttl := q[k].ttl - 1);
    assert (Granted(q[..k], grants) + [r])[..|Granted(q[..k], grants)|] == Granted(q[..k], grants);
  }

  lemma TakenNone(q: seq<Request>)
    ensures Granted(q[..0], []) == [] && FinishedOf([]) == [] && WaitingOf([]) == [] && forall c :: Taken(q[..0], [], c) == 0
  {}

  ghost predicate TakenGrows(q: seq<Request>, k: nat, grants: seq<int>, g: int, c: Channel)
    requires k < |q| && |grants| == k
  {
    Taken(q[..k + 1], grants + [g], c) == Taken(q[..k], grants, c) + (if c in q[k].channels then Uses(q[k].Served(), c) * g else 0)
  }

  lemma TakenNext(q: seq<Request>, k: nat, grants: seq<int>, g: int, c: Channel)
    requires k < |q| && |grants| == k
    ensures TakenGrows(q, k, grants, g, c)
  {
    assert q[..k + 1] == q[..k] + [q[k]];
    TakenSnoc(q[..k], grants, q[k], g, c);
    UsesZero(q[k].channels, c);
    UsesPrefix(q[k].channels, |q[k].Served()|, c);
  }

  lemma ReplaceQueued(q: seq<Request>, i: nat, r: Request)
    requires i < |q| && r.size == q[i].size
    ensures QueuedBytes(q[i := r]) == QueuedBytes(q) - (r.granted - q[i].granted)
  {
    hide QueuedBytes;
    RemoveQueued(q, i);
    RemoveQueued(q[i := r], i);
    assert q[i := r][..i] == q[..i] && q[i := r][i + 1..] == q[i + 1..];
  }

  /** The last loop of update_quotas: every request gets its share, in order, and leaves
      the queue if it is finished. */
  method Distribute(q: seq<Request>, bytes: int, ghost chans: set<Channel>)
    returns (waiting: seq<Request>, done: seq<Request>, queued: int, ghost grants: seq<int>)
    requires forall r :: r in q ==> Queued(r, chans)
    requires forall c :: c in ChansOf(q) ==> c.distributeQuota >= 0 && c.tmp >= 0
    modifies chans`quotaLeft, chans`spent
    ensures |grants| == |q| && waiting == WaitingOf(Granted(q, grants)) && done == FinishedOf(Granted(q, grants))
    ensures queued - QueuedBytes(waiting) == bytes - QueuedBytes(q)
    ensures forall i :: 0 <= i < |q| ==> grants[i] == Quota(q[i], |q[i].Served()|) && 0 <= grants[i] <= q[i].size - q[i].granted
    ensures forall c :: c in chans ==> c.quotaLeft == old(c.quotaLeft) - (if c.limit == 0 then 0 else Taken(q, grants, c))
    ensures forall c :: c in chans ==> c.spent == old(c.spent) + (if c.limit == 0 then 0 else Taken(q, grants, c))
  {
    hide Granted, FinishedOf, WaitingOf, Taken, QueuedBytes, Uses, Queued, Quota, Refilled, Told, Weight, Back, Held;
    waiting, done, queued, grants := q, [], bytes, [];
    TakenNone(q);
    var i := 0;
    ghost var k := 0;
    while i < |waiting|
      invariant 0 <= i <= |waiting| && 0 <= k <= |q| && waiting[i..] == q[k..] && |grants| == k
      invariant waiting[..i] == WaitingOf(Granted(q[..k], grants)) && done == FinishedOf(Granted(q[..k], grants))
      invariant queued - QueuedBytes(waiting) == bytes - QueuedBytes(q)
      invariant forall j :: 0 <= j < k ==> grants[j] == Quota(q[j], |q[j].Served()|) && 0 <= grants[j] <= q[j].size - q[j].granted
      invariant forall c :: c in chans ==> c.quotaLeft == old(c.quotaLeft) - (if c.limit == 0 then 0 else Taken(q[..k], grants, c))
      invariant forall c :: c in chans ==> c.spent == old(c.spent) + (if c.limit == 0 then 0 else Taken(q[..k], grants, c))
      decreases |waiting| - i
    {
      var r := waiting[i];
      assert r == waiting[i..][0] == q[k] && r in q && waiting[i..][1..] == waiting[i + 1..] && q[k..][1..] == q[k + 1..];
      QueuedFacts(r, chans);
      assert forall c :: c in r.channels ==> c in ChansOf(q);
      var r', a := AssignBandwidth(r);
      GrantedSnoc(q, k, grants, a);
      forall c | c in chans ensures TakenGrows(q, k, grants, a, c) { TakenNext(q, k, grants, a, c); }
      ReplaceQueued(waiting, i, r');
      grants := grants + [a];
      waiting := waiting[i := r'];
      if r'.granted == r'.size || (r'.ttl <= 0 && r'.granted > 0) {
        a := a + (r'.size - r'.granted);
        done := done + [r'];
        RemoveQueued(waiting, i);
        waiting := waiting[..i] + waiting[i + 1..];
      } else {
        assert waiting[..i + 1] == waiting[..i] + [r'];
        i := i + 1;
      }
      queued := queued - a;
      k := k + 1;
    }
    assert waiting[..i] == waiting && q[..k] == q;
  }

  // ------------------------------------------------------- what the loops amount to

  lemma {:induction false} LiveHeld(q: seq<Request>, gone: set<nat>, c: Channel)
    ensures Held(Live(q, gone), c) + Held(Gone(q, gone), c) == Held(q, c)
  {
    if q != [] {
      var r := q[|q| - 1];
      LiveHeld(q[..|q| - 1], gone, c);
      HeldSnoc(Live(q[..|q| - 1], gone), r, c);
      HeldSnoc(Gone(q[..|q| - 1], gone), r, c);
    }
  }

  lemma {:induction false} GrantedHeld(q: seq<Request>, grants: seq<int>, c: Channel)
    requires |q| == |grants|
    ensures var g := Granted(q, grants); Held(WaitingOf(g), c) + Held(FinishedOf(g), c) == Held(q, c) + Taken(q, grants, c)
  {
    hide Granted, FinishedOf, WaitingOf, Held, Taken, Uses;
    if q == [] {
      GrantedNothing(q, grants, c);
    } else {
      var n := |q| - 1;
      assert q[..n + 1] == q && grants[..n] + [grants[n]] == grants && q[..n] + [q[n]] == q;
      GrantedSnoc(q, n, grants[..n], grants[n]);
      GrantedHeld(q[..n], grants[..n], c);
      var r := q[n].(granted := q[n].granted + grants[n], ttl := q[n].ttl - 1);
      var g := Granted(q[..n], grants[..n]);
      TakenSnoc(q[..n], grants[..n], q[n], grants[n], c);
      HeldSnoc(q[..n], q[n], c);
      HeldSnoc(WaitingOf(g), r, c);
      HeldSnoc(FinishedOf(g), r, c);
      Spread(Uses(q[n].Served(), c), r.granted, q[n].granted);
      assert r.granted - q[n].granted == grants[n] && r.Served() == q[n].Served();
      assert Uses(r.Served(), c) * (r.granted - q[n].granted) == Uses(q[n].Served(), c) * grants[n];
      assert WaitingOf(g) + [] == WaitingOf(g) && FinishedOf(g) + [] == FinishedOf(g);
    }
  }

  lemma GrantedNothing(q: seq<Request>, grants: seq<int>, c: Channel)
    requires q == [] && grants == []
    ensures var g := Granted(q, grants); Held(WaitingOf(g), c) + Held(FinishedOf(g), c) == Held(q, c) + Taken(q, grants, c)
  {}

  lemma {:induction false} GrantedQueued(q: seq<Request>, grants: seq<int>, chans: set<Channel>)
    requires |q| == |grants| && forall r :: r in q ==> Queued(r, chans)
    requires forall i :: 0 <= i < |q| ==> 0 <= grants[i] <= q[i].size - q[i].granted
    ensures var g := Granted(q, grants); (forall r :: r in WaitingOf(g) ==> Queued(r, chans)) && Known(FinishedOf(g), chans)
  {
    if q != [] {
      var n := |q| - 1;
      assert q[..n + 1] == q && grants[..n] + [grants[n]] == grants;
      assert forall r :: r in q[..n] ==> r in q;
      assert q[n] in q;
      GrantedSnoc(q, n, grants[..n], grants[n]);
      GrantedQueued(q[..n], grants[..n], chans);
    }
  }

  lemma {:induction false} LiveFrom(q: seq<Request>, gone: set<nat>, chans: set<Channel>)
    requires forall r :: r in q ==> Queued(r, chans)
    ensures (forall r :: r in Live(q, gone) ==> Queued(r, chans)) && Known(Gone(q, gone), chans)
  {
    if q != [] {
      assert forall r :: r in q[..|q| - 1] ==> r in q;
      assert q[|q| - 1] in q;
      LiveFrom(q[..|q| - 1], gone, chans);
    }
  }

  const MAX_ROUND := 3000

  /** A channel that is listed `uses` times and had `was` bytes: it served what it could at
      once, and has to be queued for the other `kept` times. */
  ghost predicate Asked(was: int, now: int, limit: int, blk: int, uses: nat, kept: nat) {
    && kept <= uses && now == was - (uses - kept) * blk
    && (kept < uses ==> now >= limit)
    && (kept > 0 ==> now - blk < limit)
  }

  lemma AskedNext(was: int, now: int, limit: int, blk: int, uses: nat, kept: nat)
    requires Asked(was, now, limit, blk, uses, kept) && blk > 0
    ensures if now - blk < limit then Asked(was, now, limit, blk, uses + 1, kept + 1) else Asked(was, now - blk, limit, blk, uses + 1, kept)
  {
    OneMore(uses - kept, blk);
  }

  lemma AskedNone(was: int, limit: int, blk: int)
    ensures Asked(was, was, limit, blk, 0, 0)
  {}

  /** A channel that is listed once has to be queued for exactly if serving the request
      would leave it less than a second's quota. */
  lemma AskedOnce(was: int, now: int, limit: int, blk: int, uses: nat, kept: nat)
    requires Asked(was, now, limit, blk, uses, kept)
    ensures kept <= uses && now == was - (uses - kept) * blk && (was >= 0 && limit >= 0 ==> now >= 0)
    ensures uses == 1 ==> (kept == 1 <==> was - blk < limit)
  {}

  /** Which of the listed channels a request of `blk` bytes has to queue for; the others
      are charged. */
  method NeedQueueing(chan: seq<Channel>, blk: int) returns (kept: seq<Channel>)
    requires blk > 0 && forall c :: c in chan ==> c.limit >= 0
    modifies (set c | c in chan)`quotaLeft
    ensures InOrder(kept, chan) && forall c :: c in kept ==> c in chan
    ensures forall c :: c in chan ==> Asked(old(c.quotaLeft), c.quotaLeft, c.limit, blk, Uses(chan, c), Uses(kept, c))
    ensures (forall c :: c in chan ==> old(c.quotaLeft) - blk < c.limit) ==> kept == chan
    ensures |kept| <= |chan| && forall c :: c in chan && old(c.quotaLeft) >= 0 ==> c.quotaLeft >= 0
  {
    hide Uses, Asked, InOrder;
    kept := [];
    ghost var none := forall c :: c in chan ==> c.quotaLeft - blk < c.limit;
    assert chan[..0] == [];
    UsesNone();
    NoneInOrder<Channel>();
    forall c | c in chan ensures Asked(c.quotaLeft, c.quotaLeft, c.limit, blk, 0, 0) { AskedNone(c.quotaLeft, c.limit, blk); }
    for i := 0 to |chan|
      invariant none ==> kept == chan[..i] && forall c :: c in chan ==> c.quotaLeft == old(c.quotaLeft)
      invariant InOrder(kept, chan[..i]) && |kept| <= i && forall c :: c in kept ==> c in chan
      invariant forall c :: c in chan ==> Asked(old(c.quotaLeft), c.quotaLeft, c.limit, blk, Uses(chan[..i], c), Uses(kept, c))
    {
      var c := chan[i];
      assert chan[..i + 1] == chan[..i] + [c];
      OrderSnoc(kept, chan[..i], c);
      forall x ensures Uses(chan[..i + 1], x) == Uses(chan[..i], x) + (if x == c then 1 else 0) { UsesSnoc(chan[..i], c, x); }
      forall x ensures Uses(kept + [c], x) == Uses(kept, x) + (if x == c then 1 else 0) { UsesSnoc(kept, c, x); }
      AskedNext(old(c.quotaLeft), c.quotaLeft, c.limit, blk, Uses(chan[..i], c), Uses(kept, c));
      var q := c.NeedQueueing(blk);
      if q { kept := kept + [c]; }
    }
    assert chan[..|chan|] == chan;
    forall c | c in chan && old(c.quotaLeft) >= 0 ensures c.quotaLeft >= 0 {
      AskedOnce(old(c.quotaLeft), c.quotaLeft, c.limit, blk, Uses(chan, c), Uses(kept, c));
    }
  }

  lemma NoneInOrder<T>()
    ensures InOrder<T>([], [])
  {}

  /** The first list is the second with some of its members left out. */
  predicate InOrder<T(==)>(some: seq<T>, all: seq<T>) {
    some == [] ||
      (all != [] && (InOrder(some, all[..|all| - 1])
                     || (some[|some| - 1] == all[|all| - 1] && InOrder(some[..|some| - 1], all[..|all| - 1]))))
  }

  lemma OrderSnoc<T>(some: seq<T>, all: seq<T>, x: T)
    requires InOrder(some, all)
    ensures InOrder(some, all + [x]) && InOrder(some + [x], all + [x])
  {
    assert (all + [x])[..|all|] == all && (some + [x])[..|some|] == some;
  }

  lemma UsesNone()
    ensures forall c :: Uses([], c) == 0
  {}

  lemma UsesSnoc(chs: seq<Channel>, c: Channel, x: Channel)
    ensures Uses(chs + [c], x) == Uses(chs, x) + (if x == c then 1 else 0)
  {
    assert (chs + [c])[..|chs|] == chs;
  }

  lemma OneMore(n: int, blk: int)
    ensures (n + 1) * blk == n * blk + blk
  {}

  lemma Joined(q: seq<Request>, known: set<Channel>, r: Request, chans: set<Channel>)
    requires (forall x :: x in q ==> Queued(x, known)) && known <= chans && Queued(r, chans)
    ensures forall x :: x in q + [r] ==> Queued(x, chans)
  {}

  lemma NotKnown(q: seq<Request>, known: set<Channel>, c: Channel)
    requires (forall r :: r in q ==> Queued(r, known)) && c !in known
    ensures forall r :: r in q ==> c !in r.channels
  {}

  lemma KnownNot(q: seq<Request>, known: set<Channel>, c: Channel)
    requires Known(q, known) && c !in known
    ensures forall r :: r in q ==> c !in r.channels
  {}

  lemma KnownMore(q: seq<Request>, known: set<Channel>, chans: set<Channel>)
    requires Known(q, known) && known <= chans
    ensures Known(q, chans)
  {}

  lemma ChansIn(q: seq<Request>, chans: set<Channel>)
    requires forall r :: r in q ==> Queued(r, chans)
    ensures ChansOf(q) <= chans && forall r :: r in q ==> r.priority > 0
  {}

  /** In a round no channel gives out more than it had to distribute. */
  lemma RoundBudget(q: seq<Request>, grants: seq<int>, c: Channel)
    requires |grants| == |q| && c.limit > 0 && c.distributeQuota >= 0 && c.tmp == Weight(q, c) && (c in ChansOf(q) ==> c.tmp > 0)
    requires forall i :: 0 <= i < |q| ==> q[i].priority > 0 && grants[i] == Quota(q[i], |q[i].Served()|) && grants[i] >= 0
    ensures 0 <= Taken(q, grants, c) <= c.distributeQuota
  {
    hide Quota;
    forall i | 0 <= i < |q| && c in q[i].Served()
      ensures Weight(q, c) > 0 && grants[i] <= Div(c.distributeQuota * q[i].priority, Weight(q, c))
    {
      assert q[i] in q && c in q[i].channels;
      var j :| 0 <= j < |q[i].Served()| && q[i].Served()[j] == c;
      QuotaLeast(q[i], |q[i].Served()|);
    }
    BudgetKept(q, grants, c, c.distributeQuota);
  }

  lemma Untouched(q: seq<Request>, grants: seq<int>, c: Channel)
    requires |grants| == |q|
    ensures c !in ChansOf(q) ==> Taken(q, grants, c) == 0
  {
    if c !in ChansOf(q) {
      forall i | 0 <= i < |q| ensures c !in q[i].Served() {
        assert q[i] in q && c !in q[i].channels;
      }
      BandwidthSums.TakenNone(q, grants, c);
    }
  }

  // -------------------------------------------------------- what becomes of each request

  lemma {:induction false} LiveIs(q: seq<Request>, gone: set<nat>)
    ensures InOrder(Live(q, gone), q) && InOrder(Gone(q, gone), q)
    ensures multiset(Live(q, gone)) + multiset(Gone(q, gone)) == multiset(q)
    ensures (forall r :: r in Live(q, gone) ==> r.peer !in gone) && (forall r :: r in Gone(q, gone) ==> r.peer in gone)
  {
    if q != [] {
      var n := |q| - 1;
      assert q == q[..n] + [q[n]];
      LiveIs(q[..n], gone);
      OrderSnoc(Live(q[..n], gone), q[..n], q[n]);
      OrderSnoc(Gone(q[..n], gone), q[..n], q[n]);
    }
  }

  lemma {:induction false} GrantedIs(q: seq<Request>, grants: seq<int>)
    requires |q| == |grants|
    ensures |Granted(q, grants)| == |q|
    ensures forall i :: 0 <= i < |q| ==> Granted(q, grants)[i] == q[i].(granted := q[i].granted + grants[i], ttl := q[i].ttl - 1)
  {
    if q != [] { GrantedIs(q[..|q| - 1], grants[..|q| - 1]); }
  }

  lemma {:induction false} FinishedParts(q: seq<Request>)
    ensures InOrder(FinishedOf(q), q) && InOrder(WaitingOf(q), q)
    ensures multiset(FinishedOf(q)) + multiset(WaitingOf(q)) == multiset(q)
  {
    hide Finished, InOrder;
    if q == [] {
      NoneInOrder<Request>();
    } else {
      var n := |q| - 1;
      assert q == q[..n] + [q[n]];
      FinishedParts(q[..n]);
      OrderSnoc(FinishedOf(q[..n]), q[..n], q[n]);
      OrderSnoc(WaitingOf(q[..n]), q[..n], q[n]);
    }
  }

  lemma {:induction false} FinishedIs(q: seq<Request>)
    ensures forall r :: r in FinishedOf(q) ==> r.granted == r.size || (r.ttl <= 0 && r.granted > 0)
    ensures forall r :: r in WaitingOf(q) ==> r.granted != r.size && (r.ttl > 0 || r.granted <= 0)
  {
    if q != [] { FinishedIs(q[..|q| - 1]); }
  }

  predicate TellsBackwards(told: seq<Delivery>, q: seq<Request>) {
    |told| == |q| && forall i :: 0 <= i < |q| ==> told[i] == Delivery(q[|q| - 1 - i].peer, q[|q| - 1 - i].granted)
  }

  lemma TellsMore(told: seq<Delivery>, q: seq<Request>, r: Request)
    requires TellsBackwards(told, q)
    ensures TellsBackwards([Delivery(r.peer, r.granted)] + told, q + [r])
  {}

  lemma {:induction false} ToldIs(q: seq<Request>)
    ensures TellsBackwards(Told(q), q)
  {
    hide TellsBackwards;
    if q == [] {
      NothingBackwards();
    } else {
      var rest, r := q[..|q| - 1], q[|q| - 1];
      ToldIs(rest);
      TellsMore(Told(rest), rest, r);
      assert rest + [r] == q;
    }
  }

  lemma NothingBackwards()
    ensures TellsBackwards([], [])
  {}

  lemma {:induction false} EmptiedIs(q: seq<Request>)
    ensures |Emptied(q)| == |q| && forall i :: 0 <= i < |q| ==> Emptied(q)[i] == q[i].(granted := 0)
  {
    if q != [] { EmptiedIs(q[..|q| - 1]); }
  }

  /** The two lists are the third taken apart, each in its order. */
  predicate Parts(a: seq<Request>, b: seq<Request>, all: seq<Request>) {
    InOrder(a, all) && InOrder(b, all) && multiset(a) + multiset(b) == multiset(all)
  }

  /** Where each request of the queue is after a round. Those of disconnected peers are gone;
      the others, with their grants and a turn less to live, go on waiting until they have all
      they asked for, or have no turn left and have got something. */
  ghost predicate Fates(o: Report, q: seq<Request>, gone: set<nat>, after: seq<Request>) {
    && Parts(o.live, o.lost, q)
    && (forall r :: r in o.live ==> r.peer !in gone) && (forall r :: r in o.lost ==> r.peer in gone)
    && |o.grants| == |o.live| == |after|
    && (forall i :: 0 <= i < |after| ==> after[i] == o.live[i].(granted := o.live[i].granted + o.grants[i], ttl := o.live[i].ttl - 1))
    && Parts(o.done, o.waiting, after)
    && (forall r :: r in o.done ==> r.granted == r.size || (r.ttl <= 0 && r.granted > 0))
    && (forall r :: r in o.waiting ==> r.granted < r.size && (r.ttl > 0 || r.granted == 0))
  }

  lemma PartOf(a: seq<Request>, b: seq<Request>, all: seq<Request>)
    requires multiset(a) + multiset(b) == multiset(all)
    ensures forall r :: r in a || r in b ==> r in all
  {
    forall r | r in a || r in b ensures r in all {
      assert r in multiset(a) + multiset(b);
    }
  }

  lemma GrantedRange(o: Report, q: seq<Request>, after: seq<Request>)
    requires Shared(o.live, o.grants, o.view) && (forall r :: r in o.live ==> 0 <= r.granted < r.size)
    requires after == Granted(o.live, o.grants)
    ensures forall r :: r in after ==> 0 <= r.granted <= r.size
  {
    hide Granted, QuotaIn;
    GrantedIs(o.live, o.grants);
    SharesBound(o);
    forall i | 0 <= i < |after| ensures 0 <= after[i].granted <= after[i].size {
      assert o.live[i] in o.live;
    }
  }

  lemma RoundFates(o: Report, q: seq<Request>, gone: set<nat>)
    requires ReportOk(o, q, gone) && forall r :: r in q ==> 0 <= r.granted < r.size
    ensures exists after :: Fates(o, q, gone, after)
  {
    hide Live, Gone, Granted, FinishedOf, WaitingOf, InOrder, Shared;
    LiveIs(q, gone);
    SharesBound(o);
    var after := Granted(o.live, o.grants);
    GrantedIs(o.live, o.grants);
    FinishedIs(after);
    FinishedParts(after);
    PartOf(o.live, o.lost, q);
    PartOf(o.done, o.waiting, after);
    GrantedRange(o, q, after);
    assert Fates(o, q, gone, after);
  }

  /** Who is told what in a round: first, in reverse order, the peers whose requests are
      finished, with what they were granted in all; then those that have disconnected, with
      nothing. */
  lemma RoundTold(lost: seq<Request>, done: seq<Request>)
    ensures var told := Told(Emptied(lost) + done); var n := |done|;
      && |told| == n + |lost|
      && (forall i :: 0 <= i < n ==> told[i] == Delivery(done[n - 1 - i].peer, done[n - 1 - i].granted))
      && (forall i :: 0 <= i < |lost| ==> told[n..][i] == Delivery(lost[|lost| - 1 - i].peer, 0))
  {
    hide Told, Emptied;
    EmptiedIs(lost);
    ToldIs(Emptied(lost) + done);
  }

  method Empty(q: seq<Request>) returns (e: seq<Request>)
    ensures e == Emptied(q)
  {
    e := [];
    for i := 0 to |q|
      invariant e == Emptied(q[..i])
    {
      assert q[..i + 1][..i] == q[..i];
      e := e + [q[i].(granted := 0)];
    }
    assert q[..|q|] == q;
  }

  /** What becomes of the requests on a channel in a round. */
  ghost predicate RoundHeld(q: seq<Request>, live: seq<Request>, lost: seq<Request>, grants: seq<int>, waiting: seq<Request>,
                            done: seq<Request>, finished: seq<Request>, dropped: seq<Request>, c: Channel)
    requires |grants| == |live|
  {
    && Held(waiting, c) + Held(finished + done, c) == Held(q, c) + Held(finished, c) - Held(lost, c) + Taken(live, grants, c)
    && Back(dropped + lost, c) - Held(dropped + lost, c) == Back(dropped, c) - Held(dropped, c) + Back(lost, c) - Held(lost, c)
  }

  lemma RoundHolds(q: seq<Request>, gone: set<nat>, grants: seq<int>, finished: seq<Request>, dropped: seq<Request>, c: Channel)
    requires |grants| == |Live(q, gone)|
    ensures var live, lost := Live(q, gone), Gone(q, gone); var g := Granted(live, grants);
      RoundHeld(q, live, lost, grants, WaitingOf(g), FinishedOf(g), finished, dropped, c)
  {
    hide Live, Gone, Granted, WaitingOf, FinishedOf, Held, Back, Taken;
    var live, lost := Live(q, gone), Gone(q, gone);
    LiveHeld(q, gone, c);
    GrantedHeld(live, grants, c);
    HeldJoin(finished, FinishedOf(Granted(live, grants)), c);
    HeldJoin(dropped, lost, c);
  }

  lemma KnownJoin(p: seq<Request>, q: seq<Request>, chans: set<Channel>)
    requires Known(p, chans) && Known(q, chans)
    ensures Known(p + q, chans)
  {}

  /** What a channel brings to a round: its limit, what it has to distribute, and the
      priorities that compete for it. */
  datatype View = View(limit: int, budget: int, weight: int)

  /** A round: the requests that took part and what each was granted, the requests of
      disconnecting peers, those that finished and those that go on waiting. */
  datatype Report = Report(live: seq<Request>, grants: seq<int>, lost: seq<Request>, done: seq<Request>, waiting: seq<Request>,
                           view: map<Channel, View>)

  /** The share of the most limiting of the first `n` channels. */
  function QuotaIn(r: Request, n: nat, view: map<Channel, View>): int
    requires n <= |r.Served()| && forall c :: c in r.channels ==> c in view
  {
    if n == 0 then r.size - r.granted else
      assert r.Served()[n - 1] in r.channels;
      var v := view[r.Served()[n - 1]];
      if v.limit == 0 || v.weight <= 0 then QuotaIn(r, n - 1, view)
      else Min(Div(v.budget * r.priority, v.weight), QuotaIn(r, n - 1, view))
  }

  lemma {:induction false} QuotaIs(r: Request, n: nat, view: map<Channel, View>)
    requires n <= |r.Served()| && forall c :: c in r.channels ==> c in view && view[c] == View(c.limit, c.distributeQuota, c.tmp)
    ensures Quota(r, n) == QuotaIn(r, n, view)
  {
    hide Div;
    if n > 0 {
      assert r.Served()[n - 1] in r.channels;
      QuotaIs(r, n - 1, view);
    }
  }

  ghost predicate Shared(live: seq<Request>, grants: seq<int>, view: map<Channel, View>) {
    && |grants| == |live|
    && forall i :: 0 <= i < |live| ==>
         && (forall c :: c in live[i].channels ==> c in view)
         && grants[i] == QuotaIn(live[i], |live[i].Served()|, view) && 0 <= grants[i] <= live[i].size - live[i].granted
  }

  /** The round did with every request of queue `q` what it had to. */
  ghost predicate ReportOk(o: Report, q: seq<Request>, gone: set<nat>) {
    && o.live == Live(q, gone) && o.lost == Gone(q, gone) && Shared(o.live, o.grants, o.view)
    && o.waiting == WaitingOf(Granted(o.live, o.grants)) && o.done == FinishedOf(Granted(o.live, o.grants))
    && o.view.Keys == ChansOf(o.live)
  }

  /** A throttled channel after a round: it was refilled once, on top of what it had and
      got back; it distributed what was positive of that; and no more than that was
      taken. */
  ghost predicate ChannelRound(o: Report, c: Channel, limit: int, quota: int, after: int, ms: int) {
    && |o.grants| == |o.live| && c in o.view
    && var refilled := Refilled(quota + Back(o.lost, c), limit, ms);
    && o.view[c] == View(limit, Max(refilled, 0), Weight(o.live, c))
    && after == refilled - Taken(o.live, o.grants, c)
    && 0 <= Taken(o.live, o.grants, c) <= Max(refilled, 0)
  }

  ghost predicate ChannelsOk(chans: set<Channel>)
    reads chans
  {
    forall c :: c in chans ==> 0 <= c.limit < INF && c.distributeQuota >= 0
  }

  lemma SharesBound(o: Report)
    requires Shared(o.live, o.grants, o.view)
    ensures |o.grants| == |o.live| && forall i :: 0 <= i < |o.live| ==> 0 <= o.grants[i] <= o.live[i].size - o.live[i].granted
  {}

  lemma KnownNatural(q: seq<Request>, chans: set<Channel>)
    requires Known(q, chans)
    ensures forall r :: r in q ==> r.granted >= 0
  {}

  lemma RoundNatural(o: Report, c: Channel, limit: int, quota: int, after: int, ms: int)
    requires ChannelRound(o, c, limit, quota, after, ms) && quota >= 0 && 0 < limit < INF && ms >= 0 && forall r :: r in o.lost ==> r.granted >= 0
    ensures after >= 0
  {
    hide Refilled, Taken, Weight;
    BackAtLeast(o.lost, c);
    RefilledNatural(quota + Back(o.lost, c), limit, ms);
  }

  lemma RoundReport(q: seq<Request>, gone: set<nat>, o: Report, finished: seq<Request>, dropped: seq<Request>, c: Channel)
    requires ReportOk(o, q, gone)
    ensures |o.grants| == |o.live| && RoundHeld(q, o.live, o.lost, o.grants, o.waiting, o.done, finished, dropped, c)
  {
    hide Live, Gone, Granted, WaitingOf, FinishedOf, RoundHeld, QuotaIn;
    RoundHolds(q, gone, o.grants, finished, dropped, c);
  }

  lemma NothingTold()
    ensures Told(Emptied([]) + []) == []
  {}

  lemma RoundRequests(q: seq<Request>, gone: set<nat>, o: Report, chans: set<Channel>)
    requires ReportOk(o, q, gone) && forall r :: r in q ==> Queued(r, chans)
    ensures (forall r :: r in o.waiting ==> Queued(r, chans)) && Known(o.done, chans)
  {
    hide Live, Gone, Granted, FinishedOf, WaitingOf, Queued, Known, QuotaIn;
    LiveFrom(q, gone, chans);
    SharesBound(o);
    GrantedQueued(o.live, o.grants, chans);
  }

  lemma RefilledFree(quota: int, ms: int)
    ensures Refilled(quota, 0, ms) == quota
  {}

  /** update_quotas up to where it shares quota out. */
  method Prepare(q: seq<Request>, bytes: int, ms: int, gone: set<nat>, ghost chans: set<Channel>)
    returns (live: seq<Request>, lost: seq<Request>, queued: int)
    requires (forall r :: r in q ==> Queued(r, chans)) && ChannelsOk(chans) && ms >= 0
    modifies chans`quotaLeft, chans`returned, chans`tmp, chans`distributeQuota
    ensures live == Live(q, gone) && lost == Gone(q, gone) && queued - QueuedBytes(live) == bytes - QueuedBytes(q)
    ensures ChannelsOk(chans) && ChansOf(live) <= chans && Known(lost, chans)
    ensures forall r :: r in live ==> Queued(r, chans) && r.priority > 0
    ensures forall c :: c in chans ==> c.returned == old(c.returned) + (if c.limit == 0 then 0 else Back(lost, c))
    ensures forall c :: c in ChansOf(live) ==> c.tmp == Weight(live, c) && c.tmp > 0
    ensures forall c :: c in chans && c in ChansOf(live) && c.limit > 0 ==>
      c.quotaLeft == Refilled(old(c.quotaLeft) + Back(lost, c), c.limit, ms) && c.distributeQuota == Max(c.quotaLeft, 0)
    ensures forall c :: c in chans && !(c in ChansOf(live) && c.limit > 0) ==> c.quotaLeft == old(c.quotaLeft) + (if c.limit == 0 then 0 else Back(lost, c))
  {
    hide Live, Gone, Back, Weight, QueuedBytes, Queued, Refilled, Known;
    LiveFrom(q, gone, chans);
    live, lost, queued := DropGone(q, bytes, gone, chans);
    ChansIn(live, chans);
    var channels := Weigh(live);
    assert forall c :: c in channels ==> c in chans;
    forall c | c in chans && c.limit == 0 ensures Refilled(c.quotaLeft, 0, ms) == c.quotaLeft { RefilledFree(c.quotaLeft, ms); }
    Refill(channels, ms);
  }

  /** The loops of update_quotas, one after the other. */
  method Round(q: seq<Request>, bytes: int, ms: int, gone: set<nat>, ghost chans: set<Channel>)
    returns (waiting: seq<Request>, lost: seq<Request>, done: seq<Request>, queued: int, ghost o: Report)
    requires (forall r :: r in q ==> Queued(r, chans)) && ChannelsOk(chans) && ms >= 0
    modifies chans`quotaLeft, chans`returned, chans`tmp, chans`distributeQuota, chans`spent
    ensures ReportOk(o, q, gone) && waiting == o.waiting && lost == o.lost && done == o.done && |o.grants| == |o.live|
    ensures ChannelsOk(chans) && queued - QueuedBytes(waiting) == bytes - QueuedBytes(q)
    ensures forall c :: c in chans ==> c.returned == old(c.returned) + (if c.limit == 0 then 0 else Back(lost, c))
    ensures forall c :: c in chans ==> c.spent == old(c.spent) + (if c.limit == 0 then 0 else Taken(o.live, o.grants, c))
    ensures forall c :: c in chans && c in o.view && c.limit > 0 ==> ChannelRound(o, c, c.limit, old(c.quotaLeft), c.quotaLeft, ms)
    ensures forall c :: c in chans && !(c in o.view && c.limit > 0) ==> c.quotaLeft == old(c.quotaLeft) + (if c.limit == 0 then 0 else Back(lost, c))
    ensures o.view.Keys <= chans && Known(lost, chans)
    ensures forall c :: c in chans && old(c.quotaLeft) >= 0 ==> c.quotaLeft >= 0
  {
    hide Live, Gone, Granted, FinishedOf, WaitingOf, Taken, Back, Weight, QueuedBytes, Queued, Quota, Refilled, Known, QuotaIn, ReportOk, ChannelRound, ChansOf;
    var live;
    ghost var grants;
    live, lost, queued := Prepare(q, bytes, ms, gone, chans);
    ChansIn(live, chans);
    label Refilled:
    waiting, done, queued, grants := Distribute(live, queued, chans);
    o := Report(live, grants, lost, done, waiting, map c | c in ChansOf(live) :: View(c.limit, c.distributeQuota, c.tmp));
    MakeReport(o, q, gone);
    forall c | c in chans && c in o.view && c.limit > 0
      ensures ChannelRound(o, c, c.limit, old(c.quotaLeft), c.quotaLeft, ms)
    {
      RoundBudget(live, grants, c);
      MakeChannelRound(o, c, c.limit, old(c.quotaLeft), old@Refilled(c.quotaLeft), c.quotaLeft, ms);
    }
    forall c | c in chans ensures c !in ChansOf(live) ==> Taken(live, grants, c) == 0 { Untouched(live, grants, c); }
    KnownNatural(lost, chans);
    forall c | c in chans && old(c.quotaLeft) >= 0 ensures c.quotaLeft >= 0 {
      if c in o.view && c.limit > 0 {
        RoundNatural(o, c, c.limit, old(c.quotaLeft), c.quotaLeft, ms);
      } else {
        BackAtLeast(lost, c);
      }
    }
  }

  lemma MakeChannelRound(o: Report, c: Channel, limit: int, quota: int, refilled: int, after: int, ms: int)
    requires |o.grants| == |o.live| && c in o.view && refilled == Refilled(quota + Back(o.lost, c), limit, ms)
    requires o.view[c] == View(limit, Max(refilled, 0), Weight(o.live, c))
    requires after == refilled - Taken(o.live, o.grants, c) && 0 <= Taken(o.live, o.grants, c) <= Max(refilled, 0)
    ensures ChannelRound(o, c, limit, quota, after, ms)
  {}

  lemma MakeReport(o: Report, q: seq<Request>, gone: set<nat>)
    requires o.live == Live(q, gone) && o.lost == Gone(q, gone) && |o.grants| == |o.live|
    requires o.waiting == WaitingOf(Granted(o.live, o.grants)) && o.done == FinishedOf(Granted(o.live, o.grants))
    requires forall i :: 0 <= i < |o.live| ==>
      o.grants[i] == Quota(o.live[i], |o.live[i].Served()|) && 0 <= o.grants[i] <= o.live[i].size - o.live[i].granted
    requires o.view.Keys == ChansOf(o.live) && forall c :: c in o.view ==> o.view[c] == View(c.limit, c.distributeQuota, c.tmp)
    ensures ReportOk(o, q, gone)
  {
    hide Live, Gone, Granted, FinishedOf, WaitingOf, Quota, QuotaIn;
    forall i | 0 <= i < |o.live|
      ensures (forall c :: c in o.live[i].channels ==> c in o.view) && o.grants[i] == QuotaIn(o.live[i], |o.live[i].Served()|, o.view)
    {
      assert o.live[i] in o.live;
      QuotaIs(o.live[i], |o.live[i].Served()|, o.view);
    }
  }

  class BandwidthManager {
    var queue: seq<Request>
    var queuedBytes: int
    var aborted: bool
    ghost var chans: set<Channel>
    /** Requests that ended with their bytes delivered, and those that were dropped. */
    ghost var finished: seq<Request>
    ghost var dropped: seq<Request>

    ghost predicate Shape()
      reads this
    {
      && queuedBytes == QueuedBytes(queue)
      && (forall r :: r in queue ==> Queued(r, chans))
      && Known(finished, chans) && Known(dropped, chans)
      && (aborted ==> queue == [])
    }

    /** What was taken from a throttled channel and not returned is what its requests
        delivered or still hold. A dropped request returns to every channel it lists,
        though only the first five were charged. */
    ghost predicate Ledger(c: Channel)
      reads this, c
    {
      && 0 <= c.limit < INF && c.distributeQuota >= 0
      && (c.limit > 0 ==> c.spent - c.returned == Held(queue, c) + Held(finished, c) - (Back(dropped, c) - Held(dropped, c)))
    }

    ghost predicate Valid()
      reads this, chans
    {
      Shape() && forall c :: c in chans ==> Ledger(c)
    }

    constructor ()
      ensures Valid() && queue == [] && chans == {} && finished == [] && dropped == [] && !aborted
    {
      queue, queuedBytes, aborted, chans, finished, dropped := [], 0, false, {}, [], [];
    }

    /** Every waiting request is answered with what it was granted so far. */
    method Close() returns (told: seq<Delivery>)
      requires Valid()
      modifies this
      ensures Valid() && aborted && queue == [] && told == Told(old(queue))
      ensures chans == old(chans) && finished == old(finished) + old(queue) && dropped == old(dropped)
    {
      aborted := true;
      ghost var was := queue;
      forall c | c in chans ensures Held(finished + was, c) == Held(finished, c) + Held(was, c) { HeldJoin(finished, was, c); }
      var tm := queue;
      finished := finished + queue;
      queue := [];
      queuedBytes := 0;
      told := Tell(tm);
    }

    /** Asks for `blk` bytes. The request is queued on the channels that cannot serve it at
        once; the others are charged right away. */
    method RequestBandwidth(peer: nat, blk: int, priority: int, chan: seq<Channel>) returns (now: int, ghost kept: seq<Channel>)
      requires Valid() && blk > 0 && priority > 0 && |chan| <= MAX_CHANNELS
      requires forall c :: c in chan ==> 0 <= c.limit < INF && c.distributeQuota >= 0
      requires forall c :: c in chan && c !in chans ==> c.spent == 0 && c.returned == 0
      modifies this, (set c | c in chan)`quotaLeft
      ensures Valid() && finished == old(finished) && dropped == old(dropped) && aborted == old(aborted)
      ensures old(aborted) ==> now == 0 && queue == old(queue) && kept == []
      ensures !old(aborted) && kept == [] ==> now == blk && queue == old(queue)
      ensures !old(aborted) && kept != [] ==> now == 0 && queue == old(queue) + [Request(peer, priority, 0, blk, TTL, kept)]
      ensures old(aborted) ==> forall c :: c in chan ==> c.quotaLeft == old(c.quotaLeft)
      ensures !old(aborted) && (forall c :: c in chan ==> old(c.quotaLeft) - blk < c.limit) ==> kept == chan
      ensures chans == old(chans) + (set c | c in kept)
      ensures !old(aborted) ==> InOrder(kept, chan) && |kept| <= |chan|
      ensures !old(aborted) ==> forall c :: c in chan ==>
        Asked(old(c.quotaLeft), c.quotaLeft, c.limit, blk, Uses(chan, c), Uses(kept, c))
      ensures forall c :: c in chan && old(c.quotaLeft) >= 0 ==> c.quotaLeft >= 0
    {
      hide Queued, Known, Held, Back, QueuedBytes, Uses, InOrder, Asked;
      kept := [];
      if aborted { return 0, []; }
      var k := NeedQueueing(chan, blk);
      kept := k;
      if k == [] { return blk, k; }
      var r := Request(peer, priority, 0, blk, TTL, k);
      ghost var was, known := queue, chans;
      chans := chans + (set c | c in k);
      queuedBytes := queuedBytes + blk;
      queue := queue + [r];
      QueuedSnoc(was, r);
      Joined(was, known, r, chans);
      forall c | c in chans ensures Ledger(c) {
        HeldSnoc(was, r, c);
        if c !in known {
          NotKnown(was, known, c);
          KnownNot(finished, known, c);
          KnownNot(dropped, known, c);
          NotListed(was, c);
          NotListed(finished, c);
          NotListed(dropped, c);
        }
      }
      KnownMore(finished, known, chans);
      KnownMore(dropped, known, chans);
      return 0, k;
    }

    /** One round: quota of disconnecting peers goes back, every channel in use is
        refilled once, and the requests get their shares in queue order. */
    method UpdateQuotas(dt: int, gone: set<nat>) returns (told: seq<Delivery>, ghost o: Report)
      requires Valid() && dt >= 0
      modifies this, chans
      ensures Valid() && chans == old(chans) && aborted == old(aborted)
      ensures aborted || old(queue) == [] ==> told == [] && o.live == [] && o.lost == [] && queue == old(queue)
      ensures !aborted && old(queue) != [] ==> ReportOk(o, old(queue), gone) && queue == o.waiting
      ensures told == Told(Emptied(o.lost) + o.done) && finished == old(finished) + o.done && dropped == old(dropped) + o.lost
      ensures forall c :: c in chans && c in o.view && c.limit > 0 ==> ChannelRound(o, c, c.limit, old(c.quotaLeft), c.quotaLeft, Min(dt, MAX_ROUND))
      ensures forall c :: c in chans && old(c.quotaLeft) >= 0 ==> c.quotaLeft >= 0
      ensures forall c :: c in chans ==> c.limit == old(c.limit)
    {
      hide Live, Gone, Granted, FinishedOf, WaitingOf, Taken, Back, Held, Weight, QueuedBytes, Queued, Known, ChannelRound, Shared, ReportOk, Told, Emptied, Refilled, QuotaIn, ChansOf, Uses, Quota;
      told, o := [], Report([], [], [], [], [], map[]);
      NothingTold();
      if aborted || queue == [] { return; }
      ghost var q := queue;
      var ms := Min(dt, MAX_ROUND);
      var waiting, tm, ended;
      waiting, tm, ended, queuedBytes, o := Round(queue, queuedBytes, ms, gone, chans);
      RoundRequests(q, gone, o, chans);
      forall c | c in chans
        ensures RoundHeld(q, o.live, o.lost, o.grants, waiting, ended, finished, dropped, c)
      {
        RoundReport(q, gone, o, finished, dropped, c);
      }
      KnownJoin(finished, ended, chans);
      KnownJoin(dropped, tm, chans);
      queue := waiting;
      finished := finished + ended;
      dropped := dropped + tm;
      tm := Empty(tm);
      told := Tell(tm + ended);
    }
  }

  method Tell(q: seq<Request>) returns (told: seq<Delivery>)
    ensures told == Told(q)
  {
    var tm := q;
    told := [];
    while tm != []
      invariant told + Told(tm) == Told(q)
      decreases |tm|
    {
      var r := tm[|tm| - 1];
      told := told + [Delivery(r.peer, r.granted)];
      tm := tm[..|tm| - 1];
    }
  }

  // ------------------------------------------------------------------ conservation

  /** The part of a request's channels that assign_bandwidth never charges. */
  function Unserved(r: Request): seq<Channel> { r.channels[|r.Served()|..] }

  lemma {:induction false} UsesJoin(a: seq<Channel>, b: seq<Channel>, c: Channel)
    ensures Uses(a + b, c) == Uses(a, c) + Uses(b, c)
  {
    if b == [] {
      assert a + b == a;
    } else {
      assert (a + b)[..|a + b| - 1] == a + b[..|b| - 1];
      UsesJoin(a, b[..|b| - 1], c);
    }
  }

  /** What a request returns beyond what it was charged. */
  lemma UnservedUses(r: Request, c: Channel)
    ensures Uses(r.channels, c) - Uses(r.Served(), c) == Uses(Unserved(r), c)
    ensures Uses(r.channels, c) == Uses(r.Served(), c) <==> c !in Unserved(r)
  {
    assert r.channels == r.Served() + Unserved(r);
    UsesJoin(r.Served(), Unserved(r), c);
    UsesZero(Unserved(r), c);
  }

  lemma {:induction false} ExtraZero(q: seq<Request>, c: Channel)
    requires forall r :: r in q ==> r.granted >= 0
    ensures Back(q, c) - Held(q, c) >= 0
    ensures Back(q, c) == Held(q, c) <==> forall r :: r in q ==> r.granted == 0 || c !in Unserved(r)
  {
    hide Uses;
    if q != [] {
      var r, rest := q[|q| - 1], q[..|q| - 1];
      assert q == rest + [r] && r in q;
      assert forall x :: x in q <==> x in rest || x == r;
      ExtraZero(rest, c);
      UnservedUses(r, c);
      ExtraOne(Uses(r.channels, c), Uses(r.Served(), c), r.granted);
    }
  }

  lemma ExtraOne(all: nat, served: nat, granted: int)
    requires granted >= 0 && all >= served
    ensures all * granted - served * granted >= 0
    ensures all * granted == served * granted <==> granted == 0 || all == served
  {
    assert all * granted - served * granted == (all - served) * granted;
  }

  /** A throttled channel's books balance - what requests took less what came back is
      what was delivered plus what waiting requests hold - exactly if no request of a
      disconnected peer that had been granted something listed the channel beyond its
      first five. */
  lemma Conservation(m: BandwidthManager, c: Channel)
    requires m.Valid() && c in m.chans && c.limit > 0
    ensures c.spent - c.returned <= Held(m.queue, c) + Held(m.finished, c)
    ensures c.spent - c.returned == Held(m.queue, c) + Held(m.finished, c) <==>
      forall r :: r in m.dropped ==> r.granted == 0 || c !in Unserved(r)
  {
    hide Queued, Held, Back, QueuedBytes;
    assert m.Ledger(c);
    KnownNatural(m.dropped, m.chans);
    ExtraZero(m.dropped, c);
  }

  // ------------------------------------------------- books that do not balance

  /** The only request: its peer asks for 2000 bytes on six channels. */
  function Asking(chs: seq<Channel>, granted: int, ttl: int): Request { Request(1, 1, granted, 2000, ttl, chs) }

  lemma {:induction false} OneUse(chs: seq<Channel>, c: Channel)
    requires Distinct(chs) && c in chs
    ensures Uses(chs, c) == 1
  {
    var n := |chs| - 1;
    assert chs == chs[..n] + [chs[n]];
    UsesZero(chs[..n], c);
    if c in chs[..n] { OneUse(chs[..n], c); }
  }

  lemma {:induction false} EqualShares(r: Request, n: nat, view: map<Channel, View>)
    requires n <= |r.Served()| && r.size - r.granted == 2000 && r.priority == 1
    requires forall c :: c in r.channels ==> c in view && view[c] == View(1000, 1000, 1)
    ensures QuotaIn(r, n, view) == if n == 0 then 2000 else 1000
  {
    if n > 0 {
      assert r.Served()[n - 1] in r.channels;
      EqualShares(r, n - 1, view);
    }
  }

  /** A queue with one request, whose peer stays or goes. */
  lemma OneRequest(r: Request, grant: int)
    ensures Live([r], {}) == [r] && Gone([r], {}) == [] && Live([r], {r.peer}) == [] && Gone([r], {r.peer}) == [r]
    ensures var g := r.(granted := r.granted + grant, ttl := r.ttl - 1);
      Granted([r], [grant]) == [g] && (!Finished(g) ==> WaitingOf([g]) == [g] && FinishedOf([g]) == [])
    ensures Granted([], []) == [] && WaitingOf([]) == [] && FinishedOf([]) == []
  {
    assert [r][..0] == [] && [grant][..0] == [];
  }

  /** Its first round, on six channels of 1000 bytes a second that had no quota left. */
  lemma FirstRound(chs: seq<Channel>, o: Report)
    requires |chs| == 6 && Distinct(chs) && ReportOk(o, [Asking(chs, 0, TTL)], {})
    requires forall c :: c in chs && c in o.view ==> exists after :: ChannelRound(o, c, 1000, 0, after, 1000)
    ensures o.waiting == [Asking(chs, 1000, TTL - 1)] && o.done == [] && o.lost == []
  {
    hide Live, Gone, Granted, WaitingOf, FinishedOf, Taken, QuotaIn;
    var r := Asking(chs, 0, TTL);
    OneRequest(r, 0);
    OneRequest(r, o.grants[0]);
    assert o.live[0] == r && o.lost == [];
    forall c | c in chs ensures c in o.view && o.view[c] == View(1000, 1000, 1) {
      assert r in o.live && c in ChansOf(o.live);
      OneUse(chs, c);
      HeldSnoc([], r, c);
      assert [] + [r] == [r];
      var after :| ChannelRound(o, c, 1000, 0, after, 1000);
      NothingBack(c);
    }
    EqualShares(r, |r.Served()|, o.view);
    assert o.grants == [1000];
  }

  lemma NothingBack(c: Channel)
    ensures Back([], c) == 0 && Refilled(0, 1000, 1000) == 1000
  {}

  /** The sixth channel gets back what the request took from each of the first five. */
  lemma SixthGetsBack(chs: seq<Channel>)
    requires |chs| == 6 && Distinct(chs)
    ensures var r := Asking(chs, 1000, TTL - 1); Back([r], chs[5]) == 1000 && Held([r], chs[5]) == 0
  {
    var r := Asking(chs, 1000, TTL - 1);
    assert r.Served() == chs[..5];
    UsesZero(r.Served(), chs[5]);
    OneUse(chs, chs[5]);
    HeldSnoc([], r, chs[5]);
    assert [] + [r] == [r];
  }

  method SixChannels() returns (chs: seq<Channel>)
    ensures |chs| == 6 && Distinct(chs)
    ensures forall c :: c in chs ==>
      fresh(c) && c.limit == 1000 && c.quotaLeft == 0 && c.distributeQuota == 0 && c.spent == 0 && c.returned == 0
  {
    chs := [];
    for i := 0 to 6
      invariant |chs| == i && Distinct(chs)
      invariant forall c :: c in chs ==>
        fresh(c) && c.limit == 1000 && c.quotaLeft == 0 && c.distributeQuota == 0 && c.spent == 0 && c.returned == 0
    {
      var c := new Channel();
      c.limit := 1000;
      chs := chs + [c];
    }
  }

  /** The peer asks, and a second later it is granted some of what it asked for. */
  method AskOnSix() returns (m: BandwidthManager, chs: seq<Channel>)
    ensures fresh(m) && m.Valid() && fresh(m.chans) && !m.aborted && m.finished == [] && m.dropped == []
    ensures |chs| == 6 && Distinct(chs) && m.queue == [Asking(chs, 1000, TTL - 1)]
    ensures forall c :: c in chs ==> c in m.chans && c.limit == 1000
  {
    hide Queued, Known, Held, Back, QueuedBytes, Uses, Live, Gone, Granted, WaitingOf, FinishedOf, ChannelRound, Shared, Told, Emptied, ReportOk, Distinct;
    m := new BandwidthManager();
    chs := SixChannels();
    var now, kept := m.RequestBandwidth(1, 2000, 1, chs);
    assert kept == chs && m.queue == [Asking(chs, 0, TTL)];
    label Asked:
    var told, o := m.UpdateQuotas(1000, {});
    forall c | c in chs && c in o.view ensures exists after :: ChannelRound(o, c, 1000, 0, after, 1000) {
      assert ChannelRound(o, c, c.limit, old@Asked(c.quotaLeft), c.quotaLeft, 1000);
    }
    FirstRound(chs, o);
  }

  /** A peer asks for bytes on six channels, is granted some, and disconnects: the sixth
      channel has then given back a thousand bytes that nobody took from it. */
  method SixthChannelGains() returns (m: BandwidthManager, c: Channel)
    ensures m.Valid() && c in m.chans && c.limit == 1000 && m.queue == [] && m.finished == []
    ensures c.spent - c.returned == -1000
  {
    hide Queued, Known, Held, Back, QueuedBytes, Uses, Live, Gone, Granted, WaitingOf, FinishedOf, ChannelRound, Shared, Told, Emptied, Distinct;
    var chs;
    m, chs := AskOnSix();
    c := chs[5];
    var r := Asking(chs, 1000, TTL - 1);
    var told, o := m.UpdateQuotas(1000, {1});
    OneRequest(r, 0);
    assert o.live == [];
    SharesBound(o);
    NoRequest(o);
    assert m.dropped == [r];
    SixthGetsBack(chs);
    NothingHeld(c);
    assert m.Ledger(c);
  }

  lemma NoRequest(o: Report)
    ensures |o.grants| == |o.live| && o.live == [] ==> WaitingOf(Granted(o.live, o.grants)) == [] && FinishedOf(Granted(o.live, o.grants)) == []
  {}

  lemma NothingHeld(c: Channel)
    ensures Held([], c) == 0
  {}
}
