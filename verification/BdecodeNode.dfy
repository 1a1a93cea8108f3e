/** Lookups in a token tree. Each node remembers where its last lookup ended. */
module BdecodeNode {
  import opened Bencode
  import opened Bdecode
  import opened BdecodeTree

  // ------------------------------------------------------------- uncached lookups

  /** The token reached from `t` after `n` links. */
  function Skip(ts: seq<Token>, t: nat, n: nat): nat
    decreases n
  {
    if n == 0 || t >= |ts| then t else Skip(ts, t + ts[t].next, n - 1)
  }

  /** How many items lie between `t` and the end token. */
  function Items(ts: seq<Token>, t: nat): nat
    decreases |ts| - t
  {
    if t >= |ts| || ts[t].kind == EndToken || ts[t].next == 0 then 0 else 1 + Items(ts, t + ts[t].next)
  }

  predicate Odd(n: nat) { n % 2 == 1 }

  /** Skipping stays among the items, and leaves as many as it did not skip. */
  lemma {:induction false} SkipLemma(ts: seq<Token>, t: nat, n: nat, dict: bool, key: bool)
    requires Walks(ts, t, dict, key) && n <= Items(ts, t)
    ensures var u := Skip(ts, t, n);
      && t <= u < |ts| && Walks(ts, u, dict, if Odd(n) then !key else key) && Items(ts, u) == Items(ts, t) - n
      && (ts[u].kind == EndToken <==> n == Items(ts, t))
    decreases n
  {
    if n > 0 { SkipLemma(ts, t + ts[t].next, n - 1, dict, !key); }
  }

  lemma {:induction false} SkipMore(ts: seq<Token>, t: nat, n: nat)
    requires Skip(ts, t, n) < |ts|
    ensures Skip(ts, t, n + 1) == Skip(ts, t, n) + ts[Skip(ts, t, n)].next
    decreases n
  {
    if n > 0 && t < |ts| { SkipMore(ts, t + ts[t].next, n - 1); }
  }

  /** A dictionary holds whole pairs. */
  lemma {:induction false} PairsWhole(ts: seq<Token>, t: nat, key: bool)
    requires Walks(ts, t, true, key)
    ensures Odd(Items(ts, t)) <==> !key
    decreases |ts| - t
  {
    if ts[t].kind != EndToken { PairsWhole(ts, t + ts[t].next, !key); }
  }

  function StringAt(ts: seq<Token>, buf: Bytes, i: nat): Bytes
    requires i + 1 < |ts| && ts[i].kind == StringToken && ts[i].offset + ts[i].header + 2 <= ts[i + 1].offset <= |buf|
  {
    buf[ts[i].offset + ts[i].header + 2..ts[i + 1].offset]
  }

  /** int_value: a number too large for 64 bits reads as zero. */
  function IntAt(ts: seq<Token>, buf: Bytes, i: nat): int
    requires i + 1 < |ts| && ts[i].kind == IntegerToken && ts[i].offset + 3 <= ts[i + 1].offset <= |buf|
  {
    var at := ts[i].offset + 1;
    var negative := buf[at] == MINUS;
    var (_, v, e) := ParseInt(buf, if negative then at + 1 else at, ts[i + 1].offset, END, 0);
    if e != NoError then 0 else if negative then -v else v
  }

  lemma TreeAt(ts: seq<Token>, size: nat, i: nat)
    requires Tree(ts, size) && i < |ts|
    ensures Container(ts[i]) ==> Walks(ts, i + 1, ts[i].kind == DictToken, true)
    ensures ts[i].kind != EndToken ==> i + 1 < |ts| && ts[i].offset + Extent(ts[i]) <= ts[i + 1].offset <= size
  {
    hide Walks;
    if ts[i].kind != EndToken {
      OffsetsMonotone(ts, size, i, i + 1);
      assert ts[i].offset + Extent(ts[i]) <= NextOffset(ts, i, size);
    }
  }

  /** A pair of a dictionary is two items. */
  function Tokens(dict: bool, n: int): (r: int)
    ensures 0 <= n ==> 0 <= r
  {
    if dict then 2 * n else n
  }

  /** Where the key of pair `k` is. */
  function KeyAt(ts: seq<Token>, t: nat, k: nat): nat { Skip(ts, t, 2 * k) }

  function PairCount(ts: seq<Token>, t: nat): nat { Items(ts, t) / 2 }

  /** One pair further. */
  lemma PairStep(ts: seq<Token>, t: nat, k: nat)
    requires Walks(ts, t, true, true) && k < PairCount(ts, t)
    ensures var u := KeyAt(ts, t, k);
      && t <= u < |ts| && ts[u].kind == StringToken && Walks(ts, u, true, true)
      && var v := u + ts[u].next;
      && v == Skip(ts, t, 2 * k + 1) && u < v < |ts| && ts[v].kind != EndToken
      && KeyAt(ts, t, k + 1) == v + ts[v].next
  {
    hide Walks;
    PairsWhole(ts, t, true);
    SkipLemma(ts, t, 2 * k, true, true);
    SkipMore(ts, t, 2 * k);
    SkipLemma(ts, t, 2 * k + 1, true, true);
    SkipMore(ts, t, 2 * k + 1);
    WalksKey(ts, KeyAt(ts, t, k));
  }

  lemma WalksKey(ts: seq<Token>, t: nat)
    requires Walks(ts, t, true, true) && t < |ts| && ts[t].kind != EndToken
    ensures ts[t].kind == StringToken && ts[t].next > 0
  {}

  lemma PairEnd(ts: seq<Token>, t: nat, k: nat)
    requires Walks(ts, t, true, true) && k <= PairCount(ts, t)
    ensures var u := KeyAt(ts, t, k); t <= u < |ts| && (ts[u].kind == EndToken <==> k == PairCount(ts, t))
    ensures Items(ts, t) == 2 * PairCount(ts, t)
  {
    PairsWhole(ts, t, true);
    SkipLemma(ts, t, 2 * k, true, true);
  }

  // ---------------------------------------------------------------------- nodes

  class Node {
    const tokens: seq<Token>
    const buffer: Bytes
    const index: nat
    var lastIndex: int
    var lastToken: int
    var size: int

    ghost predicate Valid()
      reads this
    {
      && Tree(tokens, |buffer|) && index < |tokens|
      && (Container(tokens[index]) ==> CacheOk())
    }

    /** The cached lookup is one an uncached walk would have made. */
    ghost predicate CacheOk()
      reads this
      requires index < |tokens|
    {
      var dict := tokens[index].kind == DictToken;
      && (lastIndex == -1 || (0 <= lastIndex && Tokens(dict, lastIndex) <= Items(tokens, index + 1)
                              && lastToken == Skip(tokens, index + 1, Tokens(dict, lastIndex))))
      && (size == -1 || Tokens(dict, size) == Items(tokens, index + 1))
    }

    constructor (tokens: seq<Token>, buffer: Bytes, index: nat)
      requires Tree(tokens, |buffer|) && index < |tokens|
      ensures Valid() && this.tokens == tokens && this.buffer == buffer && this.index == index
    {
      this.tokens, this.buffer, this.index := tokens, buffer, index;
      lastIndex, lastToken, size := -1, -1, -1;
    }

    /** The item at position `i` of the list, whatever was looked up before. */
    method ListAt(i: nat) returns (item: Node)
      requires Valid() && tokens[index].kind == ListToken && i < Items(tokens, index + 1)
      modifies this
      ensures Valid() && fresh(item) && item.Valid() && item.tokens == tokens && item.buffer == buffer
      ensures item.index == Skip(tokens, index + 1, i) && tokens[item.index].kind != EndToken && item.index > index
    {
      hide Walks, Tree;
      Here();
      var token: int := index + 1;
      var n := 0;
      if lastIndex <= i && lastIndex != -1 {
        token := lastToken;
        n := lastIndex;
      }
      while n < i
        modifies {}
        invariant 0 <= n <= i && token == Skip(tokens, index + 1, n)
      {
        SkipLemma(tokens, index + 1, n, false, true);
        SkipMore(tokens, index + 1, n);
        token := token + tokens[token].next;
        n := n + 1;
      }
      SkipLemma(tokens, index + 1, i, false, true);
      lastToken := token;
      lastIndex := i;
      item := new Node(tokens, buffer, token);
    }

    method ListSize() returns (n: int)
      requires Valid() && tokens[index].kind == ListToken
      modifies this
      ensures Valid() && n == Items(tokens, index + 1)
    {
      hide Walks, Tree;
      Here();
      if size != -1 { return size; }
      var token: int := index + 1;
      n := 0;
      if lastIndex != -1 {
        token := lastToken;
        n := lastIndex;
      }
      SkipLemma(tokens, index + 1, n, false, true);
      while tokens[token].kind != EndToken
        modifies {}
        invariant 0 <= n <= Items(tokens, index + 1) && token == Skip(tokens, index + 1, n) && 0 <= token < |tokens|
        decreases Items(tokens, index + 1) - n
      {
        SkipLemma(tokens, index + 1, n, false, true);
        SkipMore(tokens, index + 1, n);
        SkipLemma(tokens, index + 1, n + 1, false, true);
        token := token + tokens[token].next;
        n := n + 1;
      }
      SkipLemma(tokens, index + 1, n, false, true);
      size := n;
    }

    /** The `i`th pair of the dictionary, whatever was looked up before. */
    method DictAt(i: nat) returns (key: Bytes, value: Node)
      requires Valid() && tokens[index].kind == DictToken && i < PairCount(tokens, index + 1)
      modifies this
      ensures Valid() && fresh(value) && value.Valid() && value.tokens == tokens && value.buffer == buffer
      ensures KeyOk(tokens, buffer, KeyAt(tokens, index + 1, i)) && key == StringAt(tokens, buffer, KeyAt(tokens, index + 1, i))
      ensures value.index == Skip(tokens, index + 1, 2 * i + 1) && tokens[value.index].kind != EndToken && value.index > index
    {
      hide Walks, Tree, Skip, StringAt, Items;
      Here();
      PairEnd(tokens, index + 1, i);
      var token: int := index + 1;
      var n := 0;
      SkipNone(tokens, index + 1);
      if lastIndex <= i && lastIndex != -1 {
        token := lastToken;
        n := lastIndex;
      }
      while n < i
        modifies {}
        invariant 0 <= n <= i && token == KeyAt(tokens, index + 1, n)
      {
        PairStep(tokens, index + 1, n);
        token := token + tokens[token].next;
        token := token + tokens[token].next;
        n := n + 1;
      }
      if i > 0 {
        lastToken := token;
        lastIndex := i;
      }
      PairStep(tokens, index + 1, i);
      KeyString(tokens, buffer, token);
      key := StringAt(tokens, buffer, token);
      value := new Node(tokens, buffer, token + tokens[token].next);
    }

    method DictSize() returns (n: int)
      requires Valid() && tokens[index].kind == DictToken
      modifies this
      ensures Valid() && n == PairCount(tokens, index + 1)
    {
      hide Walks, Tree, Skip, Items;
      Here();
      PairEnd(tokens, index + 1, 0);
      SkipNone(tokens, index + 1);
      if size != -1 { return size; }
      var token: int := index + 1;
      n := 0;
      if lastIndex != -1 {
        n := lastIndex * 2;
        token := lastToken;
      }
      SkipLemma(tokens, index + 1, n, true, true);
      while tokens[token].kind != EndToken
        modifies {}
        invariant 0 <= n <= Items(tokens, index + 1) && token == Skip(tokens, index + 1, n) && 0 <= token < |tokens|
        decreases Items(tokens, index + 1) - n
      {
        SkipLemma(tokens, index + 1, n, true, true);
        SkipMore(tokens, index + 1, n);
        SkipLemma(tokens, index + 1, n + 1, true, true);
        token := token + tokens[token].next;
        n := n + 1;
      }
      SkipLemma(tokens, index + 1, n, true, true);
      n := n / 2;
      size := n;
    }

    /** The value of the first pair with this key, if there is one. */
    method DictFind(key: Bytes) returns (found: bool, value: Node?)
      requires Valid() && tokens[index].kind == DictToken
      ensures found == (value != null)
      ensures !found ==> NoKey(tokens, buffer, index + 1, key, PairCount(tokens, index + 1))
      ensures found ==> fresh(value) && value.Valid() && value.tokens == tokens && value.buffer == buffer
      ensures found ==> exists k: nat :: FirstKey(tokens, buffer, index + 1, key, k) && value.index == Skip(tokens, index + 1, 2 * k + 1)
    {
      hide Walks, Tree, Skip, Items, StringAt;
      Here();
      PairEnd(tokens, index + 1, 0);
      SkipNone(tokens, index + 1);
      var token := index + 1;
      var n: nat := 0;
      while tokens[token].kind != EndToken
        modifies {}
        invariant 0 <= n <= PairCount(tokens, index + 1) && token == KeyAt(tokens, index + 1, n) && 0 <= token < |tokens|
        invariant NoKey(tokens, buffer, index + 1, key, n)
        decreases PairCount(tokens, index + 1) - n
      {
        PairEnd(tokens, index + 1, n);
        PairStep(tokens, index + 1, n);
        KeyString(tokens, buffer, token);
        var valueToken := token + tokens[token].next;
        if StringAt(tokens, buffer, token) == key {
          value := new Node(tokens, buffer, valueToken);
          assert FirstKey(tokens, buffer, index + 1, key, n);
          return true, value;
        }
        PairEnd(tokens, index + 1, n + 1);
        token := valueToken + tokens[valueToken].next;
        n := n + 1;
      }
      PairEnd(tokens, index + 1, n);
      return false, null;
    }

    ghost method Here()
      requires Valid() && Container(tokens[index])
      ensures Walks(tokens, index + 1, tokens[index].kind == DictToken, true)
    {
      TreeAt(tokens, |buffer|, index);
    }
  }

  predicate KeyOk(ts: seq<Token>, buf: Bytes, t: nat) {
    t + 1 < |ts| && ts[t].kind == StringToken && ts[t].offset + ts[t].header + 2 <= ts[t + 1].offset <= |buf|
  }

  lemma KeyString(ts: seq<Token>, buf: Bytes, t: nat)
    requires Tree(ts, |buf|) && Walks(ts, t, true, true) && t < |ts| && ts[t].kind != EndToken
    ensures KeyOk(ts, buf, t)
  {
    TreeAt(ts, |buf|, t);
  }

  lemma SkipNone(ts: seq<Token>, t: nat)
    ensures Skip(ts, t, 0) == t && KeyAt(ts, t, 0) == t
  {}

  /** None of the first `n` keys is this one. */
  predicate NoKey(ts: seq<Token>, buf: Bytes, t: nat, key: Bytes, n: nat) {
    forall k: nat :: k < n ==> KeyOk(ts, buf, KeyAt(ts, t, k)) && StringAt(ts, buf, KeyAt(ts, t, k)) != key
  }

  /** Pair `k` is the first with this key. */
  predicate FirstKey(ts: seq<Token>, buf: Bytes, t: nat, key: Bytes, k: nat) {
    k < PairCount(ts, t) && NoKey(ts, buf, t, key, k) && KeyOk(ts, buf, KeyAt(ts, t, k)) && StringAt(ts, buf, KeyAt(ts, t, k)) == key
  }
}
