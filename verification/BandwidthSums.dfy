/** Sums over queues of bandwidth requests. */
module BandwidthSums {
  import opened BandwidthChannels

  /** Bytes asked for and not granted yet. */
  function QueuedBytes(q: seq<Request>): int {
    if q == [] then 0 else QueuedBytes(q[..|q| - 1]) + q[|q| - 1].size - q[|q| - 1].granted
  }

  /** What the requests hold of channel `c`'s quota. */
  function Held(q: seq<Request>, c: Channel): int {
    if q == [] then 0 else Held(q[..|q| - 1], c) + Uses(q[|q| - 1].Served(), c) * q[|q| - 1].granted
  }

  /** What the requests give back to channel `c` when their peers disconnect. */
  function Back(q: seq<Request>, c: Channel): int {
    if q == [] then 0 else Back(q[..|q| - 1], c) + Uses(q[|q| - 1].channels, c) * q[|q| - 1].granted
  }

  /** The sum of the priorities that compete for channel `c`. */
  function Weight(q: seq<Request>, c: Channel): int {
    if q == [] then 0 else Weight(q[..|q| - 1], c) + Uses(q[|q| - 1].channels, c) * q[|q| - 1].priority
  }

  /** What a round took from channel `c`: request `i` was granted `grants[i]`. */
  function Taken(q: seq<Request>, grants: seq<int>, c: Channel): int
    requires |q| == |grants|
  {
    if q == [] then 0 else Taken(q[..|q| - 1], grants[..|q| - 1], c) + Uses(q[|q| - 1].Served(), c) * grants[|q| - 1]
  }

  lemma QueuedSnoc(q: seq<Request>, r: Request)
    ensures QueuedBytes(q + [r]) == QueuedBytes(q) + r.size - r.granted
  {
    assert (q + [r])[..|q|] == q;
  }

  lemma HeldSnoc(q: seq<Request>, r: Request, c: Channel)
    ensures Held(q + [r], c) == Held(q, c) + Uses(r.Served(), c) * r.granted
    ensures Back(q + [r], c) == Back(q, c) + Uses(r.channels, c) * r.granted
    ensures Weight(q + [r], c) == Weight(q, c) + Uses(r.channels, c) * r.priority
  {
    assert (q + [r])[..|q|] == q;
  }

  lemma TakenSnoc(q: seq<Request>, grants: seq<int>, r: Request, g: int, c: Channel)
    requires |q| == |grants|
    ensures Taken(q + [r], grants + [g], c) == Taken(q, grants, c) + Uses(r.Served(), c) * g
  {
    assert (q + [r])[..|q|] == q && (grants + [g])[..|q|] == grants;
  }

  lemma {:induction false} QueuedJoin(p: seq<Request>, q: seq<Request>)
    ensures QueuedBytes(p + q) == QueuedBytes(p) + QueuedBytes(q)
  {
    if q == [] {
      assert p + q == p;
    } else {
      assert (p + q)[..|p + q| - 1] == p + q[..|q| - 1];
      QueuedJoin(p, q[..|q| - 1]);
    }
  }

  lemma {:induction false} HeldJoin(p: seq<Request>, q: seq<Request>, c: Channel)
    ensures Held(p + q, c) == Held(p, c) + Held(q, c) && Back(p + q, c) == Back(p, c) + Back(q, c)
  {
    if q == [] {
      assert p + q == p;
    } else {
      assert (p + q)[..|p + q| - 1] == p + q[..|q| - 1];
      HeldJoin(p, q[..|q| - 1], c);
    }
  }

  lemma Spread(u: int, a: int, b: int)
    ensures u * (a - b) == u * a - u * b
  {}

  /** Requests that do not list a channel have nothing to do with it. */
  lemma {:induction false} NotListed(q: seq<Request>, c: Channel)
    requires forall r :: r in q ==> c !in r.channels
    ensures Held(q, c) == 0 && Back(q, c) == 0
  {
    if q != [] {
      var r := q[|q| - 1];
      assert r in q && c !in r.channels;
      UsesZero(r.channels, c);
      UsesPrefix(r.channels, |r.Served()|, c);
      NotListed(q[..|q| - 1], c);
    }
  }

  lemma {:induction false} BackAtLeast(q: seq<Request>, c: Channel)
    requires forall r :: r in q ==> r.granted >= 0
    ensures Back(q, c) >= Held(q, c) >= 0
  {
    if q != [] {
      var r := q[|q| - 1];
      assert r in q;
      UsesPrefix(r.channels, |r.Served()|, c);
      MulGrows(Uses(r.Served(), c), Uses(r.channels, c), r.granted);
      MulGrows(0, Uses(r.Served(), c), r.granted);
      assert forall x :: x in q[..|q| - 1] ==> x in q;
      BackAtLeast(q[..|q| - 1], c);
    }
  }

  // -------------------------------------------------------------------- the budget

  lemma MulMono(a: int, b: int, d: int)
    requires a <= b && d >= 0
    ensures a * d <= b * d && d * a <= d * b
  {}

  /** If every grant is within its share of the channel, what the round takes, times the
      total weight, is within the budget times the weight of the served requests. */
  lemma {:induction false} TakenWithin(q: seq<Request>, grants: seq<int>, c: Channel, budget: int, total: int)
    requires |q| == |grants| && budget >= 0 && total > 0
    requires forall i :: 0 <= i < |q| ==> q[i].priority > 0 && grants[i] >= 0
    requires forall i :: 0 <= i < |q| && c in q[i].Served() ==> grants[i] <= Div(budget * q[i].priority, total)
    ensures Taken(q, grants, c) * total <= budget * Weight(q, c)
    ensures 0 <= Taken(q, grants, c) && 0 <= Weight(q, c)
  {
    hide Uses, Div;
    if q != [] {
      var n := |q| - 1;
      var r, g := q[n], grants[n];
      TakenWithin(q[..n], grants[..n], c, budget, total);
      var u := Uses(r.Served(), c);
      UsesPrefix(r.channels, |r.Served()|, c);
      UsesZero(r.Served(), c);
      OneTaken(u, Uses(r.channels, c), g, r.priority, budget, total, c in r.Served());
      Combine(Taken(q[..n], grants[..n], c), u * g, total, budget, Weight(q[..n], c), Uses(r.channels, c) * r.priority);
    }
  }

  lemma Combine(a: int, b: int, total: int, budget: int, v: int, w: int)
    requires a * total <= budget * v && b * total <= budget * w
    ensures (a + b) * total <= budget * (v + w)
  {
    assert (a + b) * total == a * total + b * total && budget * (v + w) == budget * v + budget * w;
  }

  lemma Cancel(x: int, budget: int, total: int)
    requires total > 0 && x * total <= budget * total
    ensures x <= budget
  {
    if x > budget { MulMono(budget + 1, x, total); }
  }

  lemma OneTaken(u: nat, all: nat, g: int, p: int, budget: int, total: int, served: bool)
    requires u <= all && g >= 0 && p > 0 && budget >= 0 && total > 0 && served == (u > 0)
    requires served ==> g <= Div(budget * p, total)
    ensures u * g * total <= budget * (all * p) && u * g >= 0 && all * p >= 0
  {
    MulMono(0, u, g);
    MulMono(0, all, p);
    MulMono(0, all * p, budget);
    if served {
      MulMono(0, budget, p);
      DivNatural(budget * p, total);
      MulMono(g, Div(budget * p, total), total);
      assert g * total <= budget * p;
      MulMono(g * total, budget * p, u);
      assert u * (g * total) == u * g * total;
      MulMono(0, p, budget);
      MulMono(u, all, budget * p);
      assert all * (budget * p) == budget * (all * p) by { Shuffle(all, budget, p); }
    }
  }

  lemma Shuffle(a: int, b: int, c: int)
    ensures a * (b * c) == b * (a * c)
  {}

  /** The bytes granted in a round through a throttled channel are at most what it had to
      distribute, whatever other channels the requests list, and however often. */
  lemma BudgetKept(q: seq<Request>, grants: seq<int>, c: Channel, budget: int)
    requires |q| == |grants| && budget >= 0
    requires forall i :: 0 <= i < |q| ==> q[i].priority > 0 && grants[i] >= 0
    requires forall i :: 0 <= i < |q| && c in q[i].Served() ==> Weight(q, c) > 0 && grants[i] <= Div(budget * q[i].priority, Weight(q, c))
    ensures 0 <= Taken(q, grants, c) <= budget
  {
    var total := Weight(q, c);
    if exists i :: 0 <= i < |q| && c in q[i].Served() {
      TakenWithin(q, grants, c, budget, total);
      Cancel(Taken(q, grants, c), budget, total);
    } else {
      TakenNone(q, grants, c);
    }
  }

  lemma {:induction false} TakenNone(q: seq<Request>, grants: seq<int>, c: Channel)
    requires |q| == |grants| && forall i :: 0 <= i < |q| ==> c !in q[i].Served()
    ensures Taken(q, grants, c) == 0
  {
    if q != [] {
      UsesZero(q[|q| - 1].Served(), c);
      TakenNone(q[..|q| - 1], grants[..|q| - 1], c);
    }
  }
}
