/** chained_buffer.cpp: a chain of buffers that is used as a queue of bytes. */
module ChainedBuffers {

  type Byte = x: int | 0 <= x < 0x100

  /** A buffer: its memory, and which part of it is to be sent. */
  datatype BufferParts = Buffer(id: nat, mem: seq<Byte>, start: nat, used: nat)

  type Buffer = b: BufferParts | b.start + b.used <= |b.mem| witness Buffer(0, [], 0, 0)

  function Bytes(b: Buffer): seq<Byte> { b.mem[b.start..b.start + b.used] }

  /** A stretch of a buffer, as it is handed to the socket. */
  datatype Slice = Slice(id: nat, from: nat, length: nat)

  /** The bytes in the chain, in order. */
  function Contents(vec: seq<Buffer>): seq<Byte> {
    if vec == [] then [] else Bytes(vec[0]) + Contents(vec[1..])
  }

  function Capacity(vec: seq<Buffer>): nat {
    if vec == [] then 0 else |vec[0].mem| + Capacity(vec[1..])
  }

  function Ids(vec: seq<Buffer>): seq<nat> {
    if vec == [] then [] else [vec[0].id] + Ids(vec[1..])
  }

  /** What slices of the first buffers hold. */
  function Gathered(vec: seq<Buffer>, out: seq<Slice>): seq<Byte>
    requires Within(vec, out)
    decreases |out|
  {
    if out == [] then [] else vec[0].mem[out[0].from..out[0].from + out[0].length] + Gathered(vec[1..], out[1..])
  }

  predicate Within(vec: seq<Buffer>, out: seq<Slice>) {
    |out| <= |vec| && forall k :: 0 <= k < |out| ==> out[k].id == vec[k].id && out[k].from + out[k].length <= |vec[k].mem|
  }

  function Last(vec: seq<Buffer>): Buffer
    requires vec != []
  {
    vec[|vec| - 1]
  }

  function Space(vec: seq<Buffer>): nat {
    if vec == [] then 0 else |Last(vec).mem| - Last(vec).used - Last(vec).start
  }

  // ------------------------------------------------------------- chains joined

  lemma {:induction false} ContentsJoined(a: seq<Buffer>, b: seq<Buffer>)
    ensures Contents(a + b) == Contents(a) + Contents(b)
  {
    if a == [] {
      assert a + b == b;
    } else {
      assert (a + b)[1..] == a[1..] + b && (a + b)[0] == a[0];
      ContentsJoined(a[1..], b);
    }
  }

  lemma {:induction false} CapacityJoined(a: seq<Buffer>, b: seq<Buffer>)
    ensures Capacity(a + b) == Capacity(a) + Capacity(b)
  {
    if a == [] {
      assert a + b == b;
    } else {
      assert (a + b)[1..] == a[1..] + b && (a + b)[0] == a[0];
      CapacityJoined(a[1..], b);
    }
  }

  lemma {:induction false} IdsJoined(a: seq<Buffer>, b: seq<Buffer>)
    ensures Ids(a + b) == Ids(a) + Ids(b)
  {
    if a == [] {
      assert a + b == b;
    } else {
      assert (a + b)[1..] == a[1..] + b && (a + b)[0] == a[0];
      IdsJoined(a[1..], b);
    }
  }

  lemma Nothing()
    ensures Contents([]) == [] && Capacity([]) == 0 && Ids([]) == []
  {}

  lemma OneBuffer(b: Buffer)
    ensures Contents([b]) == Bytes(b) && Capacity([b]) == |b.mem| && Ids([b]) == [b.id]
  {
    assert [b][1..] == [];
    assert Bytes(b) + [] == Bytes(b);
  }

  /** A buffer put at either end of a chain. */
  lemma Longer(vec: seq<Buffer>, b: Buffer)
    ensures Contents(vec + [b]) == Contents(vec) + Bytes(b) && Contents([b] + vec) == Bytes(b) + Contents(vec)
    ensures Capacity(vec + [b]) == Capacity(vec) + |b.mem| && Capacity([b] + vec) == |b.mem| + Capacity(vec)
    ensures Ids(vec + [b]) == Ids(vec) + [b.id] && Ids([b] + vec) == [b.id] + Ids(vec)
  {
    hide Contents, Capacity, Ids;
    OneBuffer(b);
    ContentsJoined(vec, [b]);
    ContentsJoined([b], vec);
    CapacityJoined(vec, [b]);
    CapacityJoined([b], vec);
    IdsJoined(vec, [b]);
    IdsJoined([b], vec);
  }

  /** A chain taken apart at its first buffer. */
  lemma Front(vec: seq<Buffer>)
    requires vec != []
    ensures Contents(vec) == Bytes(vec[0]) + Contents(vec[1..])
    ensures Capacity(vec) == |vec[0].mem| + Capacity(vec[1..])
    ensures Ids(vec) == [vec[0].id] + Ids(vec[1..])
  {}

  lemma UpTo(vec: seq<Buffer>, k: nat)
    requires k < |vec|
    ensures Contents(vec[..k + 1]) == Contents(vec[..k]) + Bytes(vec[k]) && Ids(vec[..k + 1]) == Ids(vec[..k]) + [vec[k].id]
    ensures vec[k..][1..] == vec[k + 1..] && Contents(vec[k..]) == Bytes(vec[k]) + Contents(vec[k + 1..])
  {
    hide Contents, Capacity, Ids;
    assert vec[..k + 1] == vec[..k] + [vec[k]];
    Longer(vec[..k], vec[k]);
    Front(vec[k..]);
  }

  lemma FrontCut(vec: seq<Buffer>, n: nat)
    requires vec != [] && n <= vec[0].used
    ensures var cut := vec[0 := vec[0].(start := vec[0].start + n, used := vec[0].used - n)];
      Contents(cut) == Contents(vec)[n..] && Capacity(cut) == Capacity(vec) && Ids(cut) == Ids(vec)
  {
    hide Contents, Capacity, Ids;
    var b: Buffer := vec[0].(start := vec[0].start + n, used := vec[0].used - n);
    var cut := vec[0 := b];
    Front(vec);
    Front(cut);
    assert cut[1..] == vec[1..];
    assert Bytes(b) == Bytes(vec[0])[n..];
  }

  lemma LastChanged(vec: seq<Buffer>, b: Buffer)
    requires vec != [] && b.id == Last(vec).id && |b.mem| == |Last(vec).mem|
    ensures var changed := vec[|vec| - 1 := b]; var front := vec[..|vec| - 1];
      && Capacity(changed) == Capacity(vec) && Ids(changed) == Ids(vec)
      && Contents(vec) == Contents(front) + Bytes(Last(vec)) && Contents(changed) == Contents(front) + Bytes(b)
  {
    hide Contents, Capacity, Ids;
    var front := vec[..|vec| - 1];
    assert vec == front + [Last(vec)] && vec[|vec| - 1 := b] == front + [b];
    Longer(front, Last(vec));
    Longer(front, b);
  }

  lemma {:induction false} GatherMore(vec: seq<Buffer>, out: seq<Slice>, next: Slice)
    requires Within(vec, out) && |out| < |vec| && next.id == vec[|out|].id && next.from + next.length <= |vec[|out|].mem|
    ensures Within(vec, out + [next])
    ensures Gathered(vec, out + [next]) == Gathered(vec, out) + vec[|out|].mem[next.from..next.from + next.length]
    decreases |out|
  {
    if out == [] {
      assert out + [next] == [next] && [next][1..] == [];
    } else {
      assert (out + [next])[1..] == out[1..] + [next];
      GatherMore(vec[1..], out[1..], next);
    }
  }

  // -------------------------------------------------------- who frees a buffer

  /** Every buffer that was handed over has been freed or is in the chain, once. */
  ghost predicate Accounted(given: multiset<nat>, freed: seq<nat>, ids: seq<nat>) {
    multiset(freed) + multiset(ids) == given
  }

  lemma Handed(given: multiset<nat>, freed: seq<nat>, ids: seq<nat>, id: nat)
    requires Accounted(given, freed, ids)
    ensures Accounted(given + multiset{id}, freed, ids + [id]) && Accounted(given + multiset{id}, freed, [id] + ids)
  {}

  lemma Released(given: multiset<nat>, freed: seq<nat>, first: seq<nat>, rest: seq<nat>)
    requires Accounted(given, freed, first + rest)
    ensures Accounted(given, freed + first, rest)
  {}

  class ChainedBuffer {
    var vec: seq<Buffer>
    var bytes: int
    var capacity: int

    /** The buffers that were handed over, and those whose free function was called. */
    ghost var given: multiset<nat>
    ghost var freed: seq<nat>

    ghost predicate Valid()
      reads this
    {
      bytes == |Contents(vec)| && capacity == Capacity(vec) && Accounted(given, freed, Ids(vec))
    }

    constructor ()
      ensures Valid() && vec == [] && freed == [] && given == multiset{}
    {
      vec, bytes, capacity := [], 0, 0;
      given, freed := multiset{}, [];
    }

    /** Takes bytes off the front, and frees the buffers that become empty. */
    method PopFront(count: int)
      requires Valid() && 0 <= count <= bytes
      modifies this
      ensures Valid() && given == old(given)
      ensures Contents(vec) == Contents(old(vec))[count..]
      ensures |vec| <= |old(vec)| && var gone := |old(vec)| - |vec|;
        freed == old(freed) + Ids(old(vec)[..gone]) && Ids(vec) == Ids(old(vec)[gone..])
    {
      hide Capacity, Contents, Ids, Accounted, Bytes;
      ghost var all := vec;
      ghost var gone := 0;
      var left := count;
      Nothing();
      assert all[0..] == all && all[..0] == [] && Contents(all)[0..] == Contents(all);
      while left > 0 && vec != []
        invariant 0 <= gone <= |all| && vec == all[gone..] && given == old(given)
        invariant 0 <= left <= count && left <= bytes && |Contents(all)| == bytes + count - left
        invariant bytes == |Contents(vec)|
        invariant capacity == Capacity(vec)
        invariant Accounted(given, freed, Ids(vec))
        invariant Contents(vec) == Contents(all)[count - left..]
        invariant freed == old(freed) + Ids(all[..gone])
        decreases |vec|
      {
        var b := vec[0];
        Front(vec);
        if b.used > left {
          FrontCut(vec, left);
          vec := vec[0 := b.(start := b.start + left, used := b.used - left)];
          bytes := bytes - left;
          assert Contents(vec) == Contents(all)[count..];
          return;
        }
        assert |Bytes(b)| == b.used by { UsedBytes(b); }
        UpTo(all, gone);
        Released(given, freed, [b.id], Ids(vec[1..]));
        Dropped(Contents(all), count - left, Bytes(b), Contents(vec[1..]));
        freed := freed + [b.id];
        bytes := bytes - b.used;
        capacity := capacity - |b.mem|;
        left := left - b.used;
        vec := vec[1..];
        gone := gone + 1;
      }
    }

    /** `buffer` of which the first `used` bytes are to be sent, at the end of the chain. */
    method AppendBuffer(id: nat, buffer: seq<Byte>, used: nat)
      requires Valid() && used <= |buffer|
      modifies this
      ensures Valid() && given == old(given) + multiset{id} && freed == old(freed)
      ensures vec == old(vec) + [Buffer(id, buffer, 0, used)]
      ensures Contents(vec) == Contents(old(vec)) + buffer[..used]
    {
      hide Capacity, Contents, Ids, Accounted;
      var b: Buffer := Buffer(id, buffer, 0, used);
      Longer(vec, b);
      Handed(given, freed, Ids(vec), id);
      vec := vec + [b];
      given := given + multiset{id};
      bytes := bytes + used;
      capacity := capacity + |buffer|;
    }

    method PrependBuffer(id: nat, buffer: seq<Byte>, used: nat)
      requires Valid() && used <= |buffer|
      modifies this
      ensures Valid() && given == old(given) + multiset{id} && freed == old(freed)
      ensures vec == [Buffer(id, buffer, 0, used)] + old(vec)
      ensures Contents(vec) == buffer[..used] + Contents(old(vec))
    {
      hide Capacity, Contents, Ids, Accounted;
      var b: Buffer := Buffer(id, buffer, 0, used);
      Longer(vec, b);
      Handed(given, freed, Ids(vec), id);
      vec := [b] + vec;
      given := given + multiset{id};
      bytes := bytes + used;
      capacity := capacity + |buffer|;
    }

    /** The number of bytes available at the end of the last buffer. */
    method SpaceInLastBuffer() returns (space: nat)
      ensures space == Space(vec)
    {
      if vec == [] { return 0; }
      var b := vec[|vec| - 1];
      return |b.mem| - b.used - b.start;
    }

    /** Makes room at the end of the last buffer; the position of the room, or nothing. */
    method AllocateAppendix(s: nat) returns (found: bool, insert: nat)
      requires Valid()
      modifies this
      ensures Valid() && given == old(given) && freed == old(freed)
      ensures found <==> old(vec) != [] && s <= Space(old(vec))
      ensures !found ==> vec == old(vec)
      ensures found ==> var b := Last(old(vec));
        && insert == b.start + b.used && insert + s <= |b.mem|
        && vec == old(vec)[|old(vec)| - 1 := b.(used := b.used + s)]
        && Contents(vec) == Contents(old(vec)) + b.mem[insert..insert + s]
    {
      hide Capacity, Contents, Ids, Accounted;
      insert := 0;
      if vec == [] { return false, 0; }
      var b := vec[|vec| - 1];
      insert := b.start + b.used;
      if insert + s > |b.mem| { return false, 0; }
      var longer: Buffer := b.(used := b.used + s);
      LastChanged(vec, longer);
      assert Bytes(longer) == Bytes(b) + b.mem[insert..insert + s];
      vec := vec[|vec| - 1 := longer];
      bytes := bytes + s;
      return true, insert;
    }

    /** Copies `buf` to the end of the last buffer, if there is room. */
    method Append(buf: seq<Byte>) returns (done: bool)
      requires Valid()
      modifies this
      ensures Valid() && given == old(given) && freed == old(freed)
      ensures done <==> old(vec) != [] && |buf| <= Space(old(vec))
      ensures Contents(vec) == if done then Contents(old(vec)) + buf else Contents(old(vec))
      ensures Space(vec) == if done then Space(old(vec)) - |buf| else Space(old(vec))
    {
      hide Capacity, Contents, Ids, Accounted;
      var insert;
      done, insert := AllocateAppendix(|buf|);
      if !done { return; }
      var b := vec[|vec| - 1];
      var copied: Buffer := b.(mem := b.mem[..insert] + buf + b.mem[insert + |buf|..]);
      ghost var was := old(vec);
      LastChanged(was, copied);
      assert Bytes(copied) == Bytes(Last(was)) + buf;
      assert vec[|vec| - 1 := copied] == was[|vec| - 1 := copied];
      LastChanged(vec, copied);
      vec := vec[|vec| - 1 := copied];
    }

    /** The slices that hold the first `count` bytes. */
    method BuildVec(count: int) returns (out: seq<Slice>)
      requires Valid() && 0 <= count
      ensures Within(vec, out)
      ensures Gathered(vec, out) == if count <= bytes then Contents(vec)[..count] else Contents(vec)
    {
      hide Contents, Capacity, Ids, Gathered, Within, Accounted;
      out := [];
      var left := count;
      var i := 0;
      Nothing();
      NoSlices(vec);
      assert vec[..0] == [] && vec[0..] == vec;
      while left > 0 && i < |vec|
        invariant 0 <= i <= |vec| && 0 <= left <= count && |out| == i && Within(vec, out)
        invariant Gathered(vec, out) == Contents(vec[..i]) && |Contents(vec[..i])| == count - left
        invariant Contents(vec) == Contents(vec[..i]) + Contents(vec[i..])
      {
        var b := vec[i];
        UpTo(vec, i);
        if b.used > left {
          AddSlice(vec, out, Slice(b.id, b.start, left));
          out := out + [Slice(b.id, b.start, left)];
          assert Contents(vec)[..count] == Contents(vec[..i]) + b.mem[b.start..b.start + left];
          return;
        }
        AddSlice(vec, out, Slice(b.id, b.start, b.used));
        out := out + [Slice(b.id, b.start, b.used)];
        left := left - b.used;
        i := i + 1;
      }
      assert i == |vec| ==> vec[i..] == [];
    }

    /** Frees everything. */
    method Clear()
      requires Valid()
      modifies this
      ensures Valid() && vec == [] && given == old(given)
      ensures freed == old(freed) + Ids(old(vec)) && multiset(freed) == given
    {
      hide Contents, Capacity, Ids;
      Nothing();
      assert vec[..0] == [];
      for i := 0 to |vec|
        invariant vec == old(vec) && given == old(given)
        invariant freed == old(freed) + Ids(vec[..i])
      {
        UpTo(vec, i);
        freed := freed + [vec[i].id];
      }
      assert vec[..|vec|] == vec;
      Released(given, old(freed), Ids(vec), []);
      bytes := 0;
      capacity := 0;
      vec := [];
    }
  }

  lemma UsedBytes(b: Buffer)
    ensures |Bytes(b)| == b.used
  {}

  lemma Dropped(all: seq<Byte>, from: nat, first: seq<Byte>, rest: seq<Byte>)
    requires from <= |all| && all[from..] == first + rest
    ensures from + |first| <= |all| && all[from + |first|..] == rest
  {
    assert all[from..][|first|..] == rest;
  }

  lemma NoSlices(vec: seq<Buffer>)
    ensures Within(vec, []) && Gathered(vec, []) == []
  {}

  lemma {:induction false} AddSlice(vec: seq<Buffer>, out: seq<Slice>, next: Slice)
    requires Within(vec, out) && |out| < |vec| && next.id == vec[|out|].id
    requires next.from == vec[|out|].start && next.length <= vec[|out|].used
    ensures Within(vec, out + [next])
    ensures Gathered(vec, out + [next]) == Gathered(vec, out) + Bytes(vec[|out|])[..next.length]
  {
    GatherMore(vec, out, next);
    var b := vec[|out|];
    assert Bytes(b)[..next.length] == b.mem[next.from..next.from + next.length];
  }
}
