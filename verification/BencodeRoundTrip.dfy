/** Decoding the encoding of an entry, and turning the token tree back into an entry,
    gives the entry. */
module BencodeRoundTrip {
  import opened Bencode
  import opened Bdecode
  import opened BdecodeTree
  import opened BdecodeNode

  // ------------------------------------------------------- from nodes to entries

  /** map::operator[] and assignment: a pair with the same key is replaced. */
  function PutPair(ps: Pairs, k: Bytes, v: Entry): Pairs {
    match ps
    case NoPairs => Pair(k, v, NoPairs)
    case Pair(key, value, rest) =>
      if key == k then Pair(k, v, rest)
      else if Less(k, key) then Pair(k, v, ps)
      else Pair(key, value, PutPair(rest, k, v))
  }

  lemma {:induction false} PutSorted(ps: Pairs, k: Bytes, v: Entry)
    requires SortedPairs(ps) && Sorted(v)
    ensures SortedPairs(PutPair(ps, k, v))
    ensures forall x :: Above(x, ps) && Less(x, k) ==> Above(x, PutPair(ps, k, v))
  {
    if ps.Pair? {
      PutSorted(ps.rest, k, v);
      LessTotal(k, ps.key);
    }
  }

  datatype Option<+T> = None | Some(value: T)

  function Lookup(ps: Pairs, k: Bytes): Option<Entry> {
    if ps.NoPairs? then None else if ps.key == k then Some(ps.value) else Lookup(ps.rest, k)
  }

  /** After the insertion the key has the new value, and every other key what it had. */
  lemma {:induction false} PutLookup(ps: Pairs, k: Bytes, v: Entry, x: Bytes)
    ensures Lookup(PutPair(ps, k, v), x) == if x == k then Some(v) else Lookup(ps, x)
  {
    if ps.Pair? { PutLookup(ps.rest, k, v, x); }
  }

  /** What entry::operator= makes of the node at `i`. */
  function Convert(ts: seq<Token>, buf: Bytes, i: nat): Entry
    requires Tree(ts, |buf|) && i < |ts| && ts[i].kind != EndToken
    decreases |ts| - i, 0
  {
    TreeAt(ts, |buf|, i);
    match ts[i].kind
    case StringToken => Str(StringAt(ts, buf, i))
    case IntegerToken => Int(IntAt(ts, buf, i))
    case ListToken => List(ConvertList(ts, buf, i + 1))
    case DictToken => Dict(ConvertDict(ts, buf, i + 1, NoPairs))
  }

  function ConvertList(ts: seq<Token>, buf: Bytes, t: nat): Entries
    requires Tree(ts, |buf|) && Walks(ts, t, false, true)
    decreases |ts| - t, 1
  {
    hide Tree;
    if ts[t].kind == EndToken then Nil else
      ListNext(ts, t);
      Cons(Convert(ts, buf, t), ConvertList(ts, buf, t + ts[t].next))
  }

  function ConvertDict(ts: seq<Token>, buf: Bytes, t: nat, soFar: Pairs): Pairs
    requires Tree(ts, |buf|) && Walks(ts, t, true, true)
    decreases |ts| - t, 1
  {
    hide Tree, Walks;
    InArray(ts, t);
    if ts[t].kind == EndToken then soFar else
      KeyString(ts, buf, t);
      PairNext(ts, t);
      var v := t + ts[t].next;
      ConvertDict(ts, buf, v + ts[v].next, PutPair(soFar, StringAt(ts, buf, t), Convert(ts, buf, v)))
  }

  lemma InArray(ts: seq<Token>, t: nat)
    requires Walks(ts, t, true, true)
    ensures t < |ts|
  {}

  lemma PairNext(ts: seq<Token>, t: nat)
    requires Walks(ts, t, true, true) && t < |ts| && ts[t].kind != EndToken
    ensures var v := t + ts[t].next; t < v < |ts| && ts[v].kind != EndToken && ts[v].next > 0 && Walks(ts, v + ts[v].next, true, true)
  {}

  lemma {:induction false} AnyKey(ts: seq<Token>, t: nat, k: bool)
    requires Walks(ts, t, false, k)
    ensures Walks(ts, t, false, !k)
    decreases |ts| - t
  {
    if ts[t].kind != EndToken { AnyKey(ts, t + ts[t].next, !k); }
  }

  lemma ListNext(ts: seq<Token>, t: nat)
    requires Walks(ts, t, false, true) && ts[t].kind != EndToken
    ensures ts[t].next > 0 && Walks(ts, t + ts[t].next, false, true)
  {
    AnyKey(ts, t + ts[t].next, false);
  }

  function Joined(a: Entries, b: Entries): Entries { if a.Nil? then b else Cons(a.head, Joined(a.tail, b)) }

  lemma {:induction false} JoinedSnoc(a: Entries, e: Entry, b: Entries)
    ensures Joined(Joined(a, Cons(e, Nil)), b) == Joined(a, Cons(e, b))
  {
    if a.Cons? { JoinedSnoc(a.tail, e, b); }
  }

  lemma {:induction false} JoinedNil(a: Entries)
    ensures Joined(a, Nil) == a
  {
    if a.Cons? { JoinedNil(a.tail); }
  }

  /** One more item of a list. */
  lemma ListItem(ts: seq<Token>, buf: Bytes, first: nat, i: nat)
    requires Tree(ts, |buf|) && Walks(ts, first, false, true) && i <= Items(ts, first)
    ensures var t := Skip(ts, first, i); first <= t < |ts| && Walks(ts, t, false, true)
    ensures var t := Skip(ts, first, i); i == Items(ts, first) ==> ConvertList(ts, buf, t) == Nil
    ensures var t := Skip(ts, first, i); i < Items(ts, first) ==>
      && ts[t].kind != EndToken && Skip(ts, first, i + 1) == t + ts[t].next && Walks(ts, t + ts[t].next, false, true)
      && ConvertList(ts, buf, t) == Cons(Convert(ts, buf, t), ConvertList(ts, buf, t + ts[t].next))
  {
    hide Tree;
    SkipLemma(ts, first, i, false, true);
    var t := Skip(ts, first, i);
    if Odd(i) { AnyKey(ts, t, false); }
    if i < Items(ts, first) {
      SkipMore(ts, first, i);
      ListNext(ts, t);
    }
  }

  /** The pair with its key at `t` and its value at `v` is the next to be taken over. */
  predicate NextPair(ts: seq<Token>, buf: Bytes, t: nat, v: nat, soFar: Pairs)
    requires Tree(ts, |buf|) && Walks(ts, t, true, true)
  {
    hide Tree, Walks;
    && v < |ts| && ts[v].kind != EndToken && KeyOk(ts, buf, t) && Walks(ts, v + ts[v].next, true, true)
    && ConvertDict(ts, buf, t, soFar) == ConvertDict(ts, buf, v + ts[v].next, PutPair(soFar, StringAt(ts, buf, t), Convert(ts, buf, v)))
  }

  lemma DictItem(ts: seq<Token>, buf: Bytes, first: nat, i: nat, soFar: Pairs)
    requires Tree(ts, |buf|) && Walks(ts, first, true, true) && i <= PairCount(ts, first)
    ensures first <= KeyAt(ts, first, i) < |ts| && Walks(ts, KeyAt(ts, first, i), true, true)
    ensures i < PairCount(ts, first) ==> NextPair(ts, buf, KeyAt(ts, first, i), Skip(ts, first, 2 * i + 1), soFar)
    ensures i < PairCount(ts, first) ==>
      var v := Skip(ts, first, 2 * i + 1); v < |ts| && KeyAt(ts, first, i + 1) == v + ts[v].next
    ensures i == PairCount(ts, first) ==> ConvertDict(ts, buf, KeyAt(ts, first, i), soFar) == soFar
  {
    hide Tree, Walks, Items, Skip, StringAt;
    PairEnd(ts, first, i);
    SkipWalks(ts, first, i);
    var t := KeyAt(ts, first, i);
    if i < PairCount(ts, first) {
      PairStep(ts, first, i);
      KeyString(ts, buf, t);
      PairNext(ts, t);
    }
  }

  lemma SkipWalks(ts: seq<Token>, first: nat, i: nat)
    requires Walks(ts, first, true, true) && i <= PairCount(ts, first)
    ensures Walks(ts, KeyAt(ts, first, i), true, true)
  {
    SkipLemma(ts, first, 2 * i, true, true);
  }

  /** Pair `k` of the dictionary has this key. */
  predicate KeyIs(ts: seq<Token>, buf: Bytes, first: nat, k: nat, key: Bytes) {
    var t := KeyAt(ts, first, k);
    KeyOk(ts, buf, t) && StringAt(ts, buf, t) == key
  }

  /** No pair from `i` on has this key. */
  predicate NoneFrom(ts: seq<Token>, buf: Bytes, first: nat, i: nat, key: Bytes) {
    forall l :: i <= l < PairCount(ts, first) ==> !KeyIs(ts, buf, first, l, key)
  }

  /** `v` is what the value of the last pair with this key converts to. */
  predicate LastValue(ts: seq<Token>, buf: Bytes, first: nat, k: nat, key: Bytes, v: Entry)
    requires Tree(ts, |buf|)
  {
    && k < PairCount(ts, first) && KeyIs(ts, buf, first, k, key) && NoneFrom(ts, buf, first, k + 1, key)
    && var i := Skip(ts, first, 2 * k + 1);
    i < |ts| && ts[i].kind != EndToken && v == Convert(ts, buf, i)
  }

  /** The key is mapped to its last value in the node, or not at all if the node has none. */
  ghost predicate MappedAs(ts: seq<Token>, buf: Bytes, first: nat, ps: Pairs, key: Bytes)
    requires Tree(ts, |buf|)
  {
    match Lookup(ps, key)
    case None => NoneFrom(ts, buf, first, 0, key)
    case Some(v) => exists k: nat :: LastValue(ts, buf, first, k, key, v)
  }

  ghost predicate DictOf(ts: seq<Token>, buf: Bytes, first: nat, ps: Pairs)
    requires Tree(ts, |buf|)
  {
    forall key: Bytes :: MappedAs(ts, buf, first, ps, key)
  }

  /** Pairs `i` and later of the node are put over those so far. */
  lemma {:induction false} DictFrom(ts: seq<Token>, buf: Bytes, first: nat, i: nat, soFar: Pairs, key: Bytes)
    requires Tree(ts, |buf|) && Walks(ts, first, true, true) && i <= PairCount(ts, first)
    ensures Walks(ts, KeyAt(ts, first, i), true, true)
    ensures var was, now := Lookup(soFar, key), Lookup(ConvertDict(ts, buf, KeyAt(ts, first, i), soFar), key);
      (NoneFrom(ts, buf, first, i, key) && now == was)
      || (now.Some? && exists k: nat :: i <= k && LastValue(ts, buf, first, k, key, now.value))
    decreases PairCount(ts, first) - i
  {
    hide Tree, Walks, KeyAt, PairCount, Skip, Convert, ConvertDict, StringAt, PutPair, Lookup;
    DictItem(ts, buf, first, i, soFar);
    if i < PairCount(ts, first) {
      var t, v := KeyAt(ts, first, i), Skip(ts, first, 2 * i + 1);
      KeyString(ts, buf, t);
      var value := Convert(ts, buf, v);
      var more := PutPair(soFar, StringAt(ts, buf, t), value);
      DictFrom(ts, buf, first, i + 1, more, key);
      PutLookup(soFar, StringAt(ts, buf, t), value, key);
      if NoneFrom(ts, buf, first, i + 1, key) && KeyIs(ts, buf, first, i, key) {
        assert LastValue(ts, buf, first, i, key, value);
      }
    }
  }

  /** A dictionary node in any order of its keys, with any of them more than once. */
  lemma ConvertedDict(ts: seq<Token>, buf: Bytes, i: nat)
    requires Tree(ts, |buf|) && i < |ts| && ts[i].kind == DictToken
    ensures Convert(ts, buf, i).Dict? && DictOf(ts, buf, i + 1, Convert(ts, buf, i).pairs)
  {
    hide Tree, Walks, NoneFrom, LastValue, ConvertDict;
    TreeAt(ts, |buf|, i);
    var ps, first := Convert(ts, buf, i).pairs, i + 1;
    forall key: Bytes ensures MappedAs(ts, buf, first, ps, key) {
      DictFrom(ts, buf, first, 0, NoPairs, key);
      SkipNone(ts, first);
    }
  }

  /** Whatever the order of the keys in the text, those of the entry are sorted. */
  lemma {:induction false} ConvertSorted(ts: seq<Token>, buf: Bytes, i: nat)
    requires Tree(ts, |buf|) && i < |ts| && ts[i].kind != EndToken
    ensures Sorted(Convert(ts, buf, i))
    decreases |ts| - i, 0
  {
    hide Tree;
    TreeAt(ts, |buf|, i);
    if ts[i].kind == ListToken { ListSorted(ts, buf, i + 1); }
    if ts[i].kind == DictToken { DictSorted(ts, buf, i + 1, NoPairs); }
  }

  lemma {:induction false} ListSorted(ts: seq<Token>, buf: Bytes, t: nat)
    requires Tree(ts, |buf|) && Walks(ts, t, false, true)
    ensures SortedAll(ConvertList(ts, buf, t))
    decreases |ts| - t, 1
  {
    hide Tree;
    if ts[t].kind != EndToken {
      ListNext(ts, t);
      ConvertSorted(ts, buf, t);
      ListSorted(ts, buf, t + ts[t].next);
    }
  }

  lemma {:induction false} DictSorted(ts: seq<Token>, buf: Bytes, t: nat, soFar: Pairs)
    requires Tree(ts, |buf|) && Walks(ts, t, true, true) && SortedPairs(soFar)
    ensures SortedPairs(ConvertDict(ts, buf, t, soFar))
    decreases |ts| - t, 1
  {
    hide Tree, Walks, StringAt, SortedPairs, PutPair;
    InArray(ts, t);
    if ts[t].kind != EndToken {
      KeyString(ts, buf, t);
      PairNext(ts, t);
      var v := t + ts[t].next;
      ConvertSorted(ts, buf, v);
      PutSorted(soFar, StringAt(ts, buf, t), Convert(ts, buf, v));
      DictSorted(ts, buf, v + ts[v].next, PutPair(soFar, StringAt(ts, buf, t), Convert(ts, buf, v)));
    }
  }

  /** entry::operator=(bdecode_node): the node's items are looked up one by one. */
  method ToEntry(node: Node) returns (e: Entry)
    requires node.Valid() && node.tokens[node.index].kind != EndToken
    modifies node
    ensures node.Valid() && e == Convert(node.tokens, node.buffer, node.index) && Sorted(e)
    ensures node.tokens[node.index].kind == DictToken ==> e.Dict? && DictOf(node.tokens, node.buffer, node.index + 1, e.pairs)
    decreases |node.tokens| - node.index
  {
    hide Tree, Walks, Items, Skip, StringAt, IntAt, ConvertList, ConvertDict, DictOf, Sorted;
    ghost var ts, buf := node.tokens, node.buffer;
    TreeAt(ts, |buf|, node.index);
    ConvertSorted(ts, buf, node.index);
    if ts[node.index].kind == DictToken { ConvertedDict(ts, buf, node.index); }
    match node.tokens[node.index].kind
    case StringToken => e := Str(StringAt(node.tokens, node.buffer, node.index));
    case IntegerToken => e := Int(IntAt(node.tokens, node.buffer, node.index));
    case ListToken =>
      var items := Nil;
      var i := 0;
      var n := node.ListSize();
      SkipNone(ts, node.index + 1);
      while i < n
        invariant 0 <= i <= n && node.Valid()
        invariant Walks(ts, Skip(ts, node.index + 1, i), false, true)
        invariant Joined(items, ConvertList(ts, buf, Skip(ts, node.index + 1, i))) == ConvertList(ts, buf, node.index + 1)
      {
        ListItem(ts, buf, node.index + 1, i);
        var child := node.ListAt(i);
        var item := ToEntry(child);
        JoinedSnoc(items, item, ConvertList(ts, buf, Skip(ts, node.index + 1, i + 1)));
        items := Joined(items, Cons(item, Nil));
        i := i + 1;
      }
      ListItem(ts, buf, node.index + 1, i);
      JoinedNil(items);
      e := List(items);
    case DictToken =>
      var pairs := NoPairs;
      var i := 0;
      var n := node.DictSize();
      SkipNone(ts, node.index + 1);
      while i < n
        invariant 0 <= i <= n && node.Valid()
        invariant Walks(ts, KeyAt(ts, node.index + 1, i), true, true)
        invariant ConvertDict(ts, buf, KeyAt(ts, node.index + 1, i), pairs) == ConvertDict(ts, buf, node.index + 1, NoPairs)
      {
        DictItem(ts, buf, node.index + 1, i, pairs);
        var key, child := node.DictAt(i);
        var value := ToEntry(child);
        pairs := PutPair(pairs, key, value);
        i := i + 1;
      }
      DictItem(ts, buf, node.index + 1, i, pairs);
      e := Dict(pairs);
  }
}
