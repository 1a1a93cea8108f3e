/** The bencoding of BEP 3: the entry tree, its canonical encoding, and the decimal
    printer and readers for numbers. */
module Bencode {
  type Byte = x: int | 0 <= x < 256
  type Bytes = seq<Byte>

  const MINUS: Byte := '-' as int
  const ZERO: Byte := '0' as int
  const NINE: Byte := '9' as int
  const COLON: Byte := ':' as int
  const DICT: Byte := 'd' as int
  const END: Byte := 'e' as int
  const INT: Byte := 'i' as int
  const LIST: Byte := 'l' as int

  const INT64_MAX := 0x7fff_ffff_ffff_ffff

  /** A dictionary is a list of pairs in strictly increasing order of their keys. */
  datatype Entry = Int(v: int) | Str(s: Bytes) | List(items: Entries) | Dict(pairs: Pairs)
  datatype Entries = Nil | Cons(head: Entry, tail: Entries)
  datatype Pairs = NoPairs | Pair(key: Bytes, value: Entry, rest: Pairs)

  /** The order of std::string keys in a map. */
  predicate Less(a: Bytes, b: Bytes) {
    if b == [] then false
    else if a == [] then true
    else if a[0] != b[0] then a[0] < b[0]
    else Less(a[1..], b[1..])
  }

  predicate Above(k: Bytes, ps: Pairs) { ps.Pair? ==> Less(k, ps.key) }

  /** Every dictionary in the tree is sorted. */
  predicate Sorted(e: Entry) {
    match e
    case Int(_) => true
    case Str(_) => true
    case List(items) => SortedAll(items)
    case Dict(pairs) => SortedPairs(pairs)
  }

  predicate SortedAll(es: Entries) { es.Cons? ==> Sorted(es.head) && SortedAll(es.tail) }

  predicate SortedPairs(ps: Pairs) {
    ps.Pair? ==> Above(ps.key, ps.rest) && Sorted(ps.value) && SortedPairs(ps.rest)
  }

  lemma {:induction false} LessTrans(a: Bytes, b: Bytes, c: Bytes)
    requires Less(a, b) && Less(b, c)
    ensures Less(a, c)
    decreases |a|
  {
    if a != [] && a[0] == b[0] && b[0] == c[0] { LessTrans(a[1..], b[1..], c[1..]); }
  }

  lemma {:induction false} LessIrreflexive(a: Bytes)
    ensures !Less(a, a)
  {
    if a != [] { LessIrreflexive(a[1..]); }
  }

  lemma {:induction false} LessTotal(a: Bytes, b: Bytes)
    ensures a == b || Less(a, b) || Less(b, a)
    decreases |a|
  {
    if a == [] || b == [] {
    } else if a[0] == b[0] {
      LessTotal(a[1..], b[1..]);
      assert a == [a[0]] + a[1..] && b == [b[0]] + b[1..];
    }
  }

  // ------------------------------------------------------------------- numbers

  predicate Numeric(c: Byte) { ZERO <= c <= NINE }

  function Digit(d: nat): Byte
    requires d < 10
  {
    ZERO + d
  }

  /** The decimal representation. */
  function Digits(n: nat): (s: Bytes)
    ensures s != [] && forall i :: 0 <= i < |s| ==> Numeric(s[i])
  {
    if n < 10 then [Digit(n)] else Digits(n / 10) + [Digit(n % 10)]
  }

  /** The bytes from `from` up to `end` are digits. */
  predicate AllDigits(buf: Bytes, from: nat, end: nat) {
    from <= end <= |buf| && forall i :: from <= i < end ==> Numeric(buf[i])
  }

  /** The number they write. */
  function Number(buf: Bytes, from: nat, end: nat): (n: nat)
    requires AllDigits(buf, from, end)
    decreases end
  {
    if from == end then 0 else 10 * Number(buf, from, end - 1) + (buf[end - 1] - ZERO)
  }

  lemma {:induction false} NumberGrows(buf: Bytes, from: nat, end: nat, more: nat)
    requires AllDigits(buf, from, more) && from <= end <= more
    ensures Number(buf, from, end) <= Number(buf, from, more)
    decreases more
  {
    if end < more { NumberGrows(buf, from, end, more - 1); }
  }

  function Decimal(v: int): Bytes { if v < 0 then [MINUS] + Digits(-v) else Digits(v) }

  function Pow10(k: nat): nat { if k == 0 then 1 else 10 * Pow10(k - 1) }

  /** A number has at most `k` digits exactly when it is below 10 to the power `k`. */
  lemma {:induction false} DigitsLength(n: nat, k: nat)
    requires k > 0
    ensures |Digits(n)| <= k <==> n < Pow10(k)
  {
    if n >= 10 {
      if k > 1 { DigitsLength(n / 10, k - 1); } else { assert Pow10(1) == 10; }
    } else {
      Pow10Monotone(1, k);
    }
  }

  lemma {:induction false} Pow10Monotone(j: nat, k: nat)
    requires j <= k
    ensures Pow10(j) <= Pow10(k)
  {
    if j < k { Pow10Monotone(j, k - 1); }
  }

  /** 64-bit numbers have at most 19 digits. */
  lemma Digits64(n: nat)
    requires n <= INT64_MAX
    ensures |Digits(n)| <= 19
  {
    assert Pow10(2) == 100 && Pow10(4) == 10_000 && Pow10(6) == 1_000_000 && Pow10(8) == 100_000_000;
    assert Pow10(10) == 10_000_000_000 && Pow10(12) == 1_000_000_000_000 && Pow10(14) == 100_000_000_000_000;
    assert Pow10(16) == 10_000_000_000_000_000 && Pow10(18) == 1_000_000_000_000_000_000;
    assert Pow10(19) == 10_000_000_000_000_000_000;
    DigitsLength(n, 19);
  }

  /** The last digit moves from the number to the text behind it. */
  lemma DigitMoves(v: nat, text: Bytes, all: Bytes)
    requires v > 0 && Digits(v) + text == all
    ensures v >= 10 ==> Digits(v / 10) + ([Digit(v % 10)] + text) == all
    ensures v < 10 ==> [Digit(v % 10)] + text == all
  {
    if v >= 10 { assert Digits(v / 10) + ([Digit(v % 10)] + text) == Digits(v) + text; }
  }

  /** integer_to_str: the digits are put into the buffer from its end. The most negative
      64-bit number, whose negation overflows, is not asked for. */
  method IntegerToStr(buf: array<Byte>, val: int) returns (start: nat)
    requires -INT64_MAX <= val <= INT64_MAX && buf.Length >= 21
    modifies buf
    ensures start < buf.Length && buf[start..buf.Length - 1] == Decimal(val) && buf[buf.Length - 1] == 0
  {
    hide Digits;
    var sign := 0;
    var v := val;
    if v < 0 {
      sign := 1;
      v := -v;
    }
    ghost var n := v;
    Digits64(n);
    var last := buf.Length - 1;
    var at := last;
    buf[at] := 0;
    if v == 0 {
      at := at - 1;
      buf[at] := ZERO;
      assert buf[at..last] == Digits(0) by { DigitsZero(); }
    } else {
      assert Digits(v) + buf[at..last] == Digits(n);
    }
    while at > sign && v != 0
      invariant 0 <= v <= n && sign <= at <= last && buf[last] == 0
      invariant v > 0 ==> Digits(v) + buf[at..last] == Digits(n) && at > sign
      invariant v == 0 ==> buf[at..last] == Digits(n) && at > 0
    {
      ghost var text := buf[at..last];
      DigitMoves(v, text, Digits(n));
      at := at - 1;
      buf[at] := Digit(v % 10);
      assert buf[at..last] == [Digit(v % 10)] + text;
      v := v / 10;
      if v > 0 { assert |Digits(v)| + (last - at) <= 19; }
    }
    if sign == 1 {
      at := at - 1;
      buf[at] := MINUS;
      assert buf[at..last] == [MINUS] + Digits(n);
    }
    start := at;
  }

  lemma DigitsZero()
    ensures Digits(0) == [ZERO]
  {}

  // ------------------------------------------------------------------ encoding

  function Encode(e: Entry): Bytes {
    match e
    case Int(v) => [INT] + Decimal(v) + [END]
    case Str(s) => EncodeStr(s)
    case List(items) => [LIST] + EncodeAll(items) + [END]
    case Dict(pairs) => [DICT] + EncodePairs(pairs) + [END]
  }

  function EncodeStr(s: Bytes): Bytes { Digits(|s|) + [COLON] + s }

  function EncodeAll(es: Entries): Bytes {
    match es
    case Nil => []
    case Cons(e, rest) => Encode(e) + EncodeAll(rest)
  }

  function EncodePairs(ps: Pairs): Bytes {
    match ps
    case NoPairs => []
    case Pair(k, v, rest) => EncodeStr(k) + Encode(v) + EncodePairs(rest)
  }
}
