/** Rate-limited channels, and the requests that wait for quota in several of them. */
module BandwidthChannels {
  const INF := 0x7fff_ffff

  function Min(a: int, b: int): int { if a < b then a else b }
  function Max(a: int, b: int): int { if a > b then a else b }

  /** Integer division as C++ does it, towards zero. */
  function Div(a: int, b: int): int
    requires b > 0
  {
    if a >= 0 then a / b else -(-a / b)
  }

  /** The quota after `dt` milliseconds at `limit` bytes a second: at most three seconds'
      worth piles up. */
  function Refilled(quota: int, limit: int, dt: int): int {
    if limit == 0 then quota else
      var toAdd := Div(limit * dt + 500, 1000);
      if toAdd > INF - quota then INF
      else
        var q := quota + toAdd;
        Min(if Div(q, 3) > limit then limit * 3 else q, INF)
  }

  lemma DivNatural(a: int, b: int)
    requires a >= 0 && b > 0
    ensures 0 <= Div(a, b) <= a && a - b < Div(a, b) * b <= a
  {
    var q, r := a / b, a % b;
    assert a == q * b + r;
    if q > a { MulGrows(a + 1, q, b); }
  }

  lemma MulGrows(a: int, b: int, d: int)
    requires a <= b && d >= 0
    ensures a * d <= b * d
  {}

  /** What `limit` bytes a second come to in `dt` milliseconds, to the nearest byte. */
  predicate Earned(limit: int, dt: int, bytes: int) { limit * dt - 500 < 1000 * bytes <= limit * dt + 500 }

  /** The quota grows by what was earned. It stops at the largest 32-bit number, and where
      three seconds' worth would be passed by a byte for each second, it falls to just that. */
  ghost predicate RefillsTo(was: int, now: int, limit: int, dt: int) {
    if limit == 0 then now == was else
      exists x :: Earned(limit, dt, x) &&
        now == if was + x > INF then INF else if was + x >= 3 * (limit + 1) then 3 * limit else was + x
  }

  lemma RefilledExact(quota: int, limit: int, dt: int)
    requires 0 <= limit < INF && dt >= 0
    ensures RefillsTo(quota, Refilled(quota, limit, dt), limit, dt)
  {
    if limit > 0 {
      assert limit * dt >= 0 by { MulGrows(0, limit, dt); }
      var x := Div(limit * dt + 500, 1000);
      DivNatural(limit * dt + 500, 1000);
      assert Earned(limit, dt, x);
      var q := quota + x;
      if q >= 0 { DivNatural(q, 3); }
      assert Div(q, 3) > limit <==> q >= 3 * (limit + 1);
    }
  }

  /** Refilling never takes quota away from a channel that is not above its cap, never
      makes a negative balance of a non-negative one, and keeps within 32 bits. */
  lemma RefilledBounds(quota: int, limit: int, dt: int)
    requires 0 < limit < INF && dt >= 0 && quota <= INF
    ensures Refilled(quota, limit, dt) <= INF
    ensures quota >= 0 ==> Refilled(quota, limit, dt) >= 0
    ensures Refilled(quota, limit, dt) >= Min(quota, limit * 3)
    ensures Refilled(quota, limit, dt) <= Max(limit * 3 + 2, 0) || Refilled(quota, limit, dt) == INF
  {
    assert limit * dt >= 0 by { MulGrows(0, limit, dt); }
    DivNatural(limit * dt + 500, 1000);
    var q := quota + Div(limit * dt + 500, 1000);
    if q >= 0 { DivNatural(q, 3); }
  }

  lemma RefilledNatural(quota: int, limit: int, dt: int)
    requires 0 <= limit < INF && dt >= 0 && quota >= 0
    ensures Refilled(quota, limit, dt) >= 0
  {
    if limit > 0 {
      assert limit * dt >= 0 by { MulGrows(0, limit, dt); }
      DivNatural(limit * dt + 500, 1000);
      DivNatural(quota + Div(limit * dt + 500, 1000), 3);
    }
  }

  /** One way through which bandwidth is limited. `spent` and `returned` keep count of
      what queued requests took and gave back. */
  class Channel {
    var tmp: int
    var distributeQuota: int
    var quotaLeft: int
    var limit: int
    ghost var spent: int
    ghost var returned: int

    constructor ()
      ensures tmp == 0 && distributeQuota == 0 && quotaLeft == 0 && limit == 0 && spent == 0 && returned == 0
    {
      tmp, distributeQuota, quotaLeft, limit, spent, returned := 0, 0, 0, 0, 0, 0;
    }

    method UpdateQuota(dt: int)
      requires 0 <= limit < INF && dt >= 0
      modifies this`quotaLeft, this`distributeQuota
      ensures quotaLeft == Refilled(old(quotaLeft), limit, dt)
      ensures RefillsTo(old(quotaLeft), quotaLeft, limit, dt)
      ensures distributeQuota == if limit == 0 then old(distributeQuota) else Max(quotaLeft, 0)
    {
      hide RefillsTo;
      RefilledExact(quotaLeft, limit, dt);
      if limit == 0 { return; }
      var toAdd := Div(limit * dt + 500, 1000);
      if toAdd > INF - quotaLeft {
        quotaLeft := INF;
      } else {
        quotaLeft := quotaLeft + toAdd;
        if Div(quotaLeft, 3) > limit { quotaLeft := limit * 3; }
        quotaLeft := Min(quotaLeft, INF);
      }
      distributeQuota := Max(quotaLeft, 0);
    }

    method ReturnQuota(amount: int)
      requires amount >= 0
      modifies this`quotaLeft, this`returned
      ensures quotaLeft == old(quotaLeft) + (if limit == 0 then 0 else amount)
      ensures returned == old(returned) + (if limit == 0 then 0 else amount)
    {
      if limit == 0 { return; }
      quotaLeft := quotaLeft + amount;
      returned := returned + amount;
    }

    method UseQuota(amount: int)
      requires amount >= 0
      modifies this`quotaLeft, this`spent
      ensures quotaLeft == old(quotaLeft) - (if limit == 0 then 0 else amount)
      ensures spent == old(spent) + (if limit == 0 then 0 else amount)
    {
      if limit == 0 { return; }
      quotaLeft := quotaLeft - amount;
      spent := spent + amount;
    }

    /** More than a second's quota has piled up: the request is served at once. */
    method NeedQueueing(amount: int) returns (queue: bool)
      modifies this`quotaLeft
      ensures queue == (old(quotaLeft) - amount < limit)
      ensures quotaLeft == if queue then old(quotaLeft) else old(quotaLeft) - amount
    {
      if quotaLeft - amount < limit { return true; }
      quotaLeft := quotaLeft - amount;
      return false;
    }
  }

  // ------------------------------------------------------------------- requests

  const MAX_CHANNELS := 10
  const SERVED_CHANNELS := 5
  const TTL := 20

  datatype Request = Request(peer: nat, priority: int, granted: int, size: int, ttl: int, channels: seq<Channel>) {
    /** The channels assign_bandwidth looks at: no more than five. */
    function Served(): seq<Channel> { channels[..if |channels| < SERVED_CHANNELS then |channels| else SERVED_CHANNELS] }
  }

  /** How often channel `c` is listed. */
  function Uses(chs: seq<Channel>, c: Channel): nat {
    if chs == [] then 0 else Uses(chs[..|chs| - 1], c) + (if chs[|chs| - 1] == c then 1 else 0)
  }

  lemma {:induction false} UsesZero(chs: seq<Channel>, c: Channel)
    ensures Uses(chs, c) == 0 <==> c !in chs
  {
    if chs != [] {
      UsesZero(chs[..|chs| - 1], c);
      assert chs == chs[..|chs| - 1] + [chs[|chs| - 1]];
    }
  }

  lemma {:induction false} UsesPrefix(chs: seq<Channel>, n: nat, c: Channel)
    requires n <= |chs|
    ensures Uses(chs[..n], c) <= Uses(chs, c)
    decreases |chs|
  {
    if n == |chs| {
      assert chs[..n] == chs;
    } else {
      assert chs[..|chs| - 1][..n] == chs[..n];
      UsesPrefix(chs[..|chs| - 1], n, c);
    }
  }

  /** The share of the most limiting of the first `n` served channels. */
  function Quota(r: Request, n: nat): int
    requires n <= |r.Served()|
    reads (set c | c in r.channels)`limit, (set c | c in r.channels)`tmp, (set c | c in r.channels)`distributeQuota
  {
    if n == 0 then r.size - r.granted else
      var c := r.Served()[n - 1];
      if c.limit == 0 || c.tmp <= 0 then Quota(r, n - 1)
      else Min(Div(c.distributeQuota * r.priority, c.tmp), Quota(r, n - 1))
  }

  /** What assign_bandwidth grants is no more than was asked for, no more than the share
      in any throttled channel, and equal to one of these. */
  lemma {:induction false} QuotaLeast(r: Request, n: nat)
    requires n <= |r.Served()|
    ensures Quota(r, n) <= r.size - r.granted
    ensures forall j :: 0 <= j < n && r.Served()[j].limit != 0 && r.Served()[j].tmp > 0 ==>
              Quota(r, n) <= Div(r.Served()[j].distributeQuota * r.priority, r.Served()[j].tmp)
    ensures Quota(r, n) == r.size - r.granted ||
      exists j :: 0 <= j < n && r.Served()[j].limit != 0 && r.Served()[j].tmp > 0 &&
        Quota(r, n) == Div(r.Served()[j].distributeQuota * r.priority, r.Served()[j].tmp)
  {
    if n > 0 { QuotaLeast(r, n - 1); }
  }

  lemma {:induction false} QuotaNatural(r: Request, n: nat)
    requires n <= |r.Served()| && r.granted <= r.size && r.priority > 0
    requires forall c :: c in r.channels ==> c.distributeQuota >= 0
    ensures Quota(r, n) >= 0
  {
    if n > 0 {
      QuotaNatural(r, n - 1);
      var c := r.Served()[n - 1];
      assert c in r.channels;
      if c.tmp > 0 {
        MulGrows(0, c.distributeQuota, r.priority);
        DivNatural(c.distributeQuota * r.priority, c.tmp);
      }
    }
  }

  /** The channels are charged with `amount`, once for each time they are listed. */
  method UseAll(chs: seq<Channel>, amount: int)
    requires amount >= 0
    modifies (set c | c in chs)`quotaLeft, (set c | c in chs)`spent
    ensures forall c :: c in chs ==>
      && c.quotaLeft == old(c.quotaLeft) - (if c.limit == 0 then 0 else Uses(chs, c) * amount)
      && c.spent == old(c.spent) + (if c.limit == 0 then 0 else Uses(chs, c) * amount)
  {
    assert chs[..0] == [];
    for j := 0 to |chs|
      invariant forall c :: c in chs ==>
        && c.quotaLeft == old(c.quotaLeft) - (if c.limit == 0 then 0 else Uses(chs[..j], c) * amount)
        && c.spent == old(c.spent) + (if c.limit == 0 then 0 else Uses(chs[..j], c) * amount)
    {
      assert chs[..j + 1][..j] == chs[..j];
      chs[j].UseQuota(amount);
    }
    assert chs[..|chs|] == chs;
  }

  /** The channels get `amount` back, once for each time they are listed. */
  method ReturnAll(chs: seq<Channel>, amount: int)
    requires amount >= 0
    modifies (set c | c in chs)`quotaLeft, (set c | c in chs)`returned
    ensures forall c :: c in chs ==>
      && c.quotaLeft == old(c.quotaLeft) + (if c.limit == 0 then 0 else Uses(chs, c) * amount)
      && c.returned == old(c.returned) + (if c.limit == 0 then 0 else Uses(chs, c) * amount)
  {
    assert chs[..0] == [];
    for j := 0 to |chs|
      invariant forall c :: c in chs ==>
        && c.quotaLeft == old(c.quotaLeft) + (if c.limit == 0 then 0 else Uses(chs[..j], c) * amount)
        && c.returned == old(c.returned) + (if c.limit == 0 then 0 else Uses(chs[..j], c) * amount)
    {
      assert chs[..j + 1][..j] == chs[..j];
      chs[j].ReturnQuota(amount);
    }
    assert chs[..|chs|] == chs;
  }

  /** How much the request gets in this round. */
  method Share(r: Request) returns (quota: int)
    requires r.granted < r.size && r.priority > 0
    requires forall c :: c in r.channels ==> c.distributeQuota >= 0 && c.tmp >= 0
    ensures quota == Quota(r, |r.Served()|) && 0 <= quota <= r.size - r.granted
  {
    hide Div;
    quota := r.size - r.granted;
    var chs := r.Served();
    var j := 0;
    while j < |chs|
      invariant 0 <= j <= |chs| && quota == Quota(r, j)
    {
      assert chs[j] in r.channels;
      if chs[j].limit != 0 && chs[j].tmp != 0 {
        quota := Min(Div(chs[j].distributeQuota * r.priority, chs[j].tmp), quota);
      }
      j := j + 1;
    }
    QuotaLeast(r, |chs|);
    QuotaNatural(r, |chs|);
  }

  /** Takes a share of each channel's quota for the request: as much as the most limiting
      channel allows. */
  method AssignBandwidth(r: Request) returns (r': Request, quota: int)
    requires r.granted < r.size && r.priority > 0
    requires forall c :: c in r.channels ==> c.distributeQuota >= 0 && c.tmp >= 0
    modifies (set c | c in r.channels)`quotaLeft, (set c | c in r.channels)`spent
    ensures quota == Quota(r, |r.Served()|) && 0 <= quota <= r.size - r.granted
    ensures r' == r.(granted := r.granted + quota, ttl := r.ttl - 1)
    ensures forall c :: c in r.channels ==>
      && c.quotaLeft == old(c.quotaLeft) - (if c.limit == 0 then 0 else Uses(r.Served(), c) * quota)
      && c.spent == old(c.spent) + (if c.limit == 0 then 0 else Uses(r.Served(), c) * quota)
  {
    hide Quota;
    quota := Share(r);
    UseAll(r.Served(), quota);
    forall c | c in r.channels && c !in r.Served() ensures Uses(r.Served(), c) == 0 { UsesZero(r.Served(), c); }
    r' := r.(granted := r.granted + quota, ttl := r.ttl - 1);
  }
}
