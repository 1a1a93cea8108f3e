/** What the parser does with a canonical encoding. */
module BencodeEncoded {
  import opened Bencode
  import opened Bdecode
  import opened BdecodeTree
  import opened BdecodeNode
  import opened BencodeRoundTrip

  /** `s` stands in the buffer at `i`. */
  predicate At(buf: Bytes, i: nat, s: Bytes) { i + |s| <= |buf| && buf[i..i + |s|] == s }

  lemma AtParts(buf: Bytes, i: nat, a: Bytes, b: Bytes)
    requires At(buf, i, a + b)
    ensures At(buf, i, a) && At(buf, i + |a|, b)
  {
    assert (a + b)[..|a|] == a && (a + b)[|a|..] == b;
    assert buf[i..i + |a|] == buf[i..i + |a + b|][..|a|];
    assert buf[i + |a|..i + |a| + |b|] == buf[i..i + |a + b|][|a|..];
  }

  lemma AtByte(buf: Bytes, i: nat, s: Bytes, k: nat)
    requires At(buf, i, s) && k < |s|
    ensures buf[i + k] == s[k]
  {
    assert buf[i..i + |s|][k] == buf[i + k];
  }

  // ------------------------------------------------------------------- numbers

  predicate AllDigits(s: Bytes) { forall i :: 0 <= i < |s| ==> Numeric(s[i]) }

  /** The number that reading digits `s` makes of `val`. */
  function Value(val: nat, s: Bytes): nat
    requires AllDigits(s)
    decreases |s|
  {
    if s == [] then val else Value(val * 10 + (s[0] - ZERO), s[1..])
  }

  lemma {:induction false} ValueSnoc(val: nat, s: Bytes, c: Byte)
    requires AllDigits(s) && Numeric(c)
    ensures Value(val, s + [c]) == Value(val, s) * 10 + (c - ZERO)
    decreases |s|
  {
    if s != [] {
      assert (s + [c])[1..] == s[1..] + [c];
      ValueSnoc(val * 10 + (s[0] - ZERO), s[1..], c);
    }
  }

  lemma {:induction false} ValueGrows(val: nat, s: Bytes)
    requires AllDigits(s)
    ensures Value(val, s) >= val
    decreases |s|
  {
    if s != [] { ValueGrows(val * 10 + (s[0] - ZERO), s[1..]); }
  }

  /** Reading the decimal representation of a number gives the number. */
  lemma {:induction false} ValueDigits(n: nat)
    ensures Value(0, Digits(n)) == n
  {
    if n < 10 {
      assert Digits(n)[1..] == [];
    } else {
      ValueDigits(n / 10);
      ValueSnoc(0, Digits(n / 10), Digit(n % 10));
    }
  }

  lemma {:induction false} ParseDigits(buf: Bytes, at: nat, end: nat, delimiter: Byte, val: nat, s: Bytes)
    requires AllDigits(s) && At(buf, at, s) && at + |s| < end <= |buf| && buf[at + |s|] == delimiter && !Numeric(delimiter)
    requires Value(val, s) <= INT64_MAX
    ensures ParseInt(buf, at, end, delimiter, val) == (at + |s|, Value(val, s), NoError)
    decreases |s|
  {
    if s != [] {
      AtByte(buf, at, s, 0);
      var v := val * 10 + (s[0] - ZERO);
      ValueGrows(v, s[1..]);
      assert s == [s[0]] + s[1..];
      AtParts(buf, at, [s[0]], s[1..]);
      ParseDigits(buf, at + 1, end, delimiter, v, s[1..]);
    }
  }

  lemma {:induction false} CheckRun(buf: Bytes, at: nat, digits: nat, s: Bytes)
    requires AllDigits(s) && s != [] && At(buf, at, s + [END])
    ensures CheckDigits(buf, at, digits) == (at + |s|, digits + |s|, NoError)
    decreases |s|
  {
    AtByte(buf, at, s + [END], 0);
    AtByte(buf, at, s + [END], 1);
    if |s| > 1 {
      assert s + [END] == [s[0]] + (s[1..] + [END]);
      AtParts(buf, at, [s[0]], s[1..] + [END]);
      CheckRun(buf, at + 1, digits + 1, s[1..]);
    }
  }

  lemma CheckEncoded(buf: Bytes, at: nat, v: int)
    requires -INT64_MAX <= v <= INT64_MAX && At(buf, at, Decimal(v) + [END])
    ensures CheckInteger(buf, at) == (at + |Decimal(v)|, NoError)
  {
    var s := if v < 0 then Digits(-v) else Digits(v);
    Digits64(if v < 0 then -v else v);
    AtByte(buf, at, Decimal(v) + [END], 0);
    if v < 0 {
      assert Decimal(v) + [END] == [MINUS] + (s + [END]);
      AtParts(buf, at, [MINUS], s + [END]);
      CheckRun(buf, at + 1, 0, s);
    } else {
      CheckRun(buf, at, 0, s);
    }
  }

  /** Strings whose length prefix fits a token's header. */
  const LONGEST := 100_000_000

  lemma ShortPrefix(n: nat)
    requires n < LONGEST
    ensures |Digits(n)| <= 8
  {
    assert Pow10(2) == 100 && Pow10(4) == 10_000 && Pow10(6) == 1_000_000 && Pow10(8) == LONGEST;
    DigitsLength(n, 8);
  }

  lemma ValueHead(d: Bytes)
    requires AllDigits(d) && d != []
    ensures AllDigits(d[1..]) && Value(0, d) == Value(d[0] - ZERO, d[1..])
  {}

  /** The length prefix of an encoded string. */
  lemma PrefixEncoded(buf: Bytes, start: nat, s: Bytes)
    requires At(buf, start, EncodeStr(s)) && |s| < LONGEST
    ensures var d := |Digits(|s|)|;
      && start + d + 1 + |s| <= |buf| && start + 1 < |buf| && Numeric(buf[start])
      && ParseInt(buf, start + 1, |buf|, COLON, buf[start] - ZERO) == (start + d, |s|, NoError)
  {
    hide Digits, Value, ParseInt;
    var d := Digits(|s|);
    assert EncodeStr(s) == d + ([COLON] + s);
    AtParts(buf, start, d, [COLON] + s);
    PrefixParse(buf, start, d, [COLON] + s, |s|) by { ValueDigits(|s|); }
  }

  lemma PrefixParse(buf: Bytes, start: nat, d: Bytes, rest: Bytes, n: nat)
    requires AllDigits(d) && d != [] && At(buf, start, d) && At(buf, start + |d|, rest) && rest != [] && rest[0] == COLON
    requires Value(0, d) == n <= INT64_MAX
    ensures start + 1 <= start + |d| < |buf| && Numeric(buf[start])
    ensures ParseInt(buf, start + 1, |buf|, COLON, buf[start] - ZERO) == (start + |d|, n, NoError)
  {
    hide Value, ParseInt;
    AtByte(buf, start + |d|, rest, 0);
    AtByte(buf, start, d, 0);
    ValueHead(d);
    assert d == [d[0]] + d[1..];
    AtParts(buf, start, [d[0]], d[1..]);
    ParseDigits(buf, start + 1, |buf|, COLON, d[0] - ZERO, d[1..]);
  }

  lemma HeadEncoded(buf: Bytes, start: nat, s: Bytes)
    requires At(buf, start, EncodeStr(s)) && |s| < LONGEST && (s == [] ==> start + |EncodeStr(s)| < |buf|)
    ensures start < |buf| && Numeric(buf[start])
    ensures StringHead(buf, start) == (start + |Digits(|s|)| + 1, |s|, NoError)
  {
    hide Digits, ParseInt;
    PrefixEncoded(buf, start, s);
    ShortPrefix(|s|);
  }

  // -------------------------------------------------------------------- tokens

  /** The tokens of an entry encoded at `off`. */
  function Tokens(e: Entry, off: nat): (ts: seq<Token>)
    ensures ts != [] && ts[0].offset == off && ts[0].kind != EndToken && ts[0].next == |ts|
  {
    match e
    case Int(v) => [Token(off, IntegerToken, 1, 0)]
    case Str(s) => [StrToken(s, off)]
    case List(items) => Wrapped(ListToken, off, TokensAll(items, off + 1), EncodeAll(items))
    case Dict(pairs) => Wrapped(DictToken, off, TokensPairs(pairs, off + 1), EncodePairs(pairs))
  }

  function StrToken(s: Bytes, off: nat): Token { Token(off, StringToken, 1, |Digits(|s|)| - 1) }

  function Wrapped(kind: Kind, off: nat, inner: seq<Token>, code: Bytes): seq<Token> {
    [Token(off, kind, |inner| + 2, 0)] + inner + [Token(off + 1 + |code|, EndToken, 1, 0)]
  }

  function TokensAll(es: Entries, off: nat): seq<Token> {
    match es
    case Nil => []
    case Cons(e, rest) => Tokens(e, off) + TokensAll(rest, off + |Encode(e)|)
  }

  function TokensPairs(ps: Pairs, off: nat): seq<Token> {
    match ps
    case NoPairs => []
    case Pair(k, v, rest) =>
      [StrToken(k, off)] + Tokens(v, off + |EncodeStr(k)|) + TokensPairs(rest, off + |EncodeStr(k)| + |Encode(v)|)
  }

  /** How deeply containers nest. */
  function Depth(e: Entry): nat {
    match e
    case Int(_) => 0
    case Str(_) => 0
    case List(items) => 1 + DepthAll(items)
    case Dict(pairs) => 1 + DepthPairs(pairs)
  }

  function Max(a: nat, b: nat): nat { if a > b then a else b }
  function DepthAll(es: Entries): nat { if es.Nil? then 0 else Max(Depth(es.head), DepthAll(es.tail)) }
  function DepthPairs(ps: Pairs): nat { if ps.NoPairs? then 0 else Max(Depth(ps.value), DepthPairs(ps.rest)) }

  /** Numbers in the 64-bit range (but its least), and strings not beyond the header. */
  predicate Fits(e: Entry) {
    match e
    case Int(v) => -INT64_MAX <= v <= INT64_MAX
    case Str(s) => |s| < LONGEST
    case List(items) => FitsAll(items)
    case Dict(pairs) => FitsPairs(pairs)
  }

  predicate FitsAll(es: Entries) { es.Cons? ==> Fits(es.head) && FitsAll(es.tail) }
  predicate FitsPairs(ps: Pairs) { ps.Pair? ==> |ps.key| < LONGEST && Fits(ps.value) && FitsPairs(ps.rest) }

  // ------------------------------------------------------- the parser on an encoding

  function Continued(buf: Bytes, m: Machine, depthLimit: int, left: int): Outcome
    requires StackOk(m) && m.start <= |buf|
  {
    if m.stack == [] then Go(m) else Parse(buf, m, depthLimit, left)
  }

  /** The machine after an entry. */
  function After(m: Machine, e: Entry): (r: Machine)
    requires StackOk(m)
    ensures StackOk(r)
  {
    Toggled(m).(start := m.start + |Encode(e)|, tokens := m.tokens + Tokens(e, m.start))
  }

  /** There is room for tokens `ts` and nesting `depth`, and the links stay short. */
  predicate Room(buf: Bytes, m: Machine, depth: nat, tokens: nat, depthLimit: int, left: int) {
    && StackOk(m) && m.start <= |buf| <= MAX_OFFSET && |m.tokens| <= m.start
    && |m.stack| + depth < depthLimit && tokens <= left
  }

  lemma StepInt(buf: Bytes, m: Machine, v: int, depthLimit: int, left: int)
    requires Room(buf, m, 0, 1, depthLimit, left) && At(buf, m.start, Encode(Int(v))) && Fits(Int(v))
    requires InDict(m) ==> m.stack[|m.stack| - 1].value
    ensures Step(buf, m, depthLimit, left) == Go(After(m, Int(v)))
    ensures m.start < After(m, Int(v)).start <= |buf|
  {
    hide CheckInteger, Decimal, Toggled;
    AtByte(buf, m.start, Encode(Int(v)), 0);
    assert Encode(Int(v)) == [INT] + (Decimal(v) + [END]);
    AtParts(buf, m.start, [INT], Decimal(v) + [END]);
    CheckEncoded(buf, m.start + 1, v);
    hide At;
  }

  lemma StepStr(buf: Bytes, m: Machine, s: Bytes, depthLimit: int, left: int)
    requires Room(buf, m, 0, 1, depthLimit, left) && At(buf, m.start, EncodeStr(s)) && |s| < LONGEST
    requires s == [] ==> m.start + 2 < |buf|
    ensures Step(buf, m, depthLimit, left) == Go(After(m, Str(s)))
    ensures m.start < After(m, Str(s)).start <= |buf|
  {
    assert s == [] ==> EncodeStr(s) == [ZERO, COLON];
    HeadEncoded(buf, m.start, s);
    hide StringHead, Digits, Toggled;
  }

  /** Every token stands for at least one byte. */
  lemma {:induction false} TokensShort(e: Entry, off: nat)
    ensures |Tokens(e, off)| <= |Encode(e)|
    decreases e
  {
    match e
    case Int(v) =>
    case Str(s) =>
    case List(items) => AllShort(items, off + 1);
    case Dict(pairs) => PairsShort(pairs, off + 1);
  }

  lemma {:induction false} AllShort(es: Entries, off: nat)
    ensures |TokensAll(es, off)| <= |EncodeAll(es)|
    decreases es
  {
    if es.Cons? {
      TokensShort(es.head, off);
      AllShort(es.tail, off + |Encode(es.head)|);
    }
  }

  lemma {:induction false} PairsShort(ps: Pairs, off: nat)
    ensures |TokensPairs(ps, off)| <= |EncodePairs(ps)|
    decreases ps
  {
    if ps.Pair? {
      TokensShort(ps.value, off + |EncodeStr(ps.key)|);
      PairsShort(ps.rest, off + |EncodeStr(ps.key)| + |Encode(ps.value)|);
    }
  }

  /** The machine after `n` bytes that gave tokens `ts`. */
  function Grown(m: Machine, n: nat, ts: seq<Token>): (r: Machine)
    requires StackOk(m)
    ensures StackOk(r) && InDict(r) == InDict(m)
  {
    m.(start := m.start + n, tokens := m.tokens + ts)
  }

  lemma GrownTwice(m: Machine, n: nat, ts: seq<Token>, k: nat, us: seq<Token>)
    requires StackOk(m)
    ensures Grown(Grown(m, n, ts), k, us) == Grown(m, n + k, ts + us)
  {
    assert m.tokens + ts + us == m.tokens + (ts + us);
  }

  lemma ParseStep(buf: Bytes, m: Machine, r: Machine, depthLimit: int, left: int)
    requires StackOk(m) && m.start <= |buf| && Step(buf, m, depthLimit, left) == Go(r)
    ensures StackOk(r) && r.start <= |buf| && Parse(buf, m, depthLimit, left) == Continued(buf, r, depthLimit, left - 1)
  {
    hide Step;
    StepProgress(buf, m, depthLimit, left);
  }

  lemma StepOpen(buf: Bytes, m: Machine, kind: Kind, depthLimit: int, left: int)
    requires StackOk(m) && m.start < |buf| && |m.stack| < depthLimit && left > 0
    requires (kind == DictToken && buf[m.start] == DICT) || (kind == ListToken && buf[m.start] == LIST)
    requires InDict(m) ==> m.stack[|m.stack| - 1].value
    ensures Step(buf, m, depthLimit, left) == Go(Open(m, kind))
  {}

  /** Reading the end of a container of which the content stands behind its token. */
  lemma StepEnd(buf: Bytes, g: Machine, outer: seq<Frame>, before: seq<Token>, t: Token, inner: seq<Token>, depthLimit: int, left: int)
    requires g.start < |buf| && buf[g.start] == END && |outer| + 1 < depthLimit && left > 0 && |inner| + 2 <= MAX_NEXT_ITEM
    requires g.stack == outer + [Frame(|before|, false)] && g.tokens == before + [t] + inner && StackOk(g)
    ensures Step(buf, g, depthLimit, left) ==
      Go(Machine(g.start + 1, before + [t.(next := |inner| + 2)] + inner + [Token(g.start, EndToken, 1, 0)], outer))
  {
    var top := |before|;
    var us := g.tokens + [Token(g.start, EndToken, 1, 0)];
    assert g.stack[..|g.stack| - 1] == outer && g.stack[|g.stack| - 1] == Frame(top, false);
    assert us[top] == t && |us| - top == |inner| + 2;
    assert us[top := t.(next := |inner| + 2)] == before + [t.(next := |inner| + 2)] + inner + [Token(g.start, EndToken, 1, 0)];
  }

  lemma StepClose(buf: Bytes, m: Machine, kind: Kind, inner: seq<Token>, code: Bytes, depthLimit: int, left: int)
    requires StackOk(m) && (kind == DictToken || kind == ListToken) && |buf| <= MAX_OFFSET && |m.tokens| <= m.start && |inner| <= |code|
    requires m.start + 1 + |code| < |buf| && buf[m.start + 1 + |code|] == END && |m.stack| + 1 < depthLimit && left > 0
    ensures var r := Toggled(m).(start := m.start + |code| + 2, tokens := m.tokens + Wrapped(kind, m.start, inner, code));
      StackOk(Grown(Open(m, kind), |code|, inner)) && Step(buf, Grown(Open(m, kind), |code|, inner), depthLimit, left) == Go(r)
  {
    hide Step;
    var g := Grown(Open(m, kind), |code|, inner);
    StepEnd(buf, g, Toggled(m).stack, m.tokens, Token(m.start, kind, 0, 0), inner, depthLimit, left);
    assert m.tokens + Wrapped(kind, m.start, inner, code) ==
           m.tokens + [Token(m.start, kind, |inner| + 2, 0)] + inner + [Token(g.start, EndToken, 1, 0)];
  }

  lemma {:induction false} ParseEntry(buf: Bytes, m: Machine, e: Entry, depthLimit: int, left: int)
    requires Room(buf, m, Depth(e), |Tokens(e, m.start)|, depthLimit, left) && At(buf, m.start, Encode(e)) && Fits(e)
    requires e == Str([]) ==> m.start + 2 < |buf|
    requires InDict(m) && !m.stack[|m.stack| - 1].value ==> e.Str?
    ensures After(m, e).start <= |buf|
    ensures Parse(buf, m, depthLimit, left) == Continued(buf, After(m, e), depthLimit, left - |Tokens(e, m.start)|)
    decreases e, 0
  {
    hide *;
    match e
    case Int(v) => ParseLeaf(buf, m, e, depthLimit, left);
    case Str(s) => ParseLeaf(buf, m, e, depthLimit, left);
    case List(items) =>
      ListNeeds(buf, m, items, depthLimit, left);
      ParseList(buf, m, items, depthLimit, left);
      AfterList(m, items);
    case Dict(pairs) =>
      DictNeeds(buf, m, pairs, depthLimit, left);
      ParseDict(buf, m, pairs, depthLimit, left);
      AfterDict(m, pairs);
  }

  lemma ListNeeds(buf: Bytes, m: Machine, items: Entries, depthLimit: int, left: int)
    requires var e := List(items); Room(buf, m, Depth(e), |Tokens(e, m.start)|, depthLimit, left) && At(buf, m.start, Encode(e)) && Fits(e)
    ensures StackOk(m)
    ensures Room(buf, m, 1 + DepthAll(items), |TokensAll(items, m.start + 1)| + 2, depthLimit, left) && FitsAll(items)
    ensures At(buf, m.start, [LIST] + EncodeAll(items) + [END])
  {
    hide At;
  }

  lemma DictNeeds(buf: Bytes, m: Machine, pairs: Pairs, depthLimit: int, left: int)
    requires var e := Dict(pairs); Room(buf, m, Depth(e), |Tokens(e, m.start)|, depthLimit, left) && At(buf, m.start, Encode(e)) && Fits(e)
    ensures StackOk(m)
    ensures Room(buf, m, 1 + DepthPairs(pairs), |TokensPairs(pairs, m.start + 1)| + 2, depthLimit, left) && FitsPairs(pairs)
    ensures At(buf, m.start, [DICT] + EncodePairs(pairs) + [END])
  {
    hide At;
  }

  lemma ParseLeaf(buf: Bytes, m: Machine, e: Entry, depthLimit: int, left: int)
    requires Room(buf, m, Depth(e), |Tokens(e, m.start)|, depthLimit, left) && At(buf, m.start, Encode(e)) && Fits(e)
    requires e.Int? || e.Str?
    requires e == Str([]) ==> m.start + 2 < |buf|
    requires InDict(m) && !m.stack[|m.stack| - 1].value ==> e.Str?
    ensures After(m, e).start <= |buf|
    ensures Parse(buf, m, depthLimit, left) == Continued(buf, After(m, e), depthLimit, left - |Tokens(e, m.start)|)
  {
    hide Step, Parse, Continued, Toggled, At, Digits, Decimal;
    match e
    case Int(v) =>
      StepInt(buf, m, v, depthLimit, left);
      ParseStep(buf, m, After(m, e), depthLimit, left);
    case Str(s) =>
      StepStr(buf, m, s, depthLimit, left);
      ParseStep(buf, m, After(m, e), depthLimit, left);
  }

  lemma AfterList(m: Machine, items: Entries)
    requires StackOk(m)
    ensures After(m, List(items)) == Finished(m, ListToken, TokensAll(items, m.start + 1), EncodeAll(items))
    ensures |Tokens(List(items), m.start)| == |TokensAll(items, m.start + 1)| + 2
  {}

  lemma AfterDict(m: Machine, pairs: Pairs)
    requires StackOk(m)
    ensures After(m, Dict(pairs)) == Finished(m, DictToken, TokensPairs(pairs, m.start + 1), EncodePairs(pairs))
    ensures |Tokens(Dict(pairs), m.start)| == |TokensPairs(pairs, m.start + 1)| + 2
  {}

  lemma {:induction false} ParseList(buf: Bytes, m: Machine, items: Entries, depthLimit: int, left: int)
    requires Room(buf, m, 1 + DepthAll(items), |TokensAll(items, m.start + 1)| + 2, depthLimit, left) && FitsAll(items)
    requires At(buf, m.start, [LIST] + EncodeAll(items) + [END]) && (InDict(m) ==> m.stack[|m.stack| - 1].value)
    ensures var inner, code := TokensAll(items, m.start + 1), EncodeAll(items); var r := Finished(m, ListToken, inner, code);
      r.start <= |buf| && Parse(buf, m, depthLimit, left) == Continued(buf, r, depthLimit, left - 2 - |inner|)
    decreases items, 2
  {
    hide EncodeAll, TokensAll, Step, Parse, Open, Toggled, At, Grown, FitsAll, DepthAll, Wrapped, InDict;
    AllShort(items, m.start + 1);
    OpenFacts(m, ListToken);
    ContainerText(buf, m.start, LIST, EncodeAll(items));
    ParseItems(buf, Open(m, ListToken), items, depthLimit, left - 1);
    ParseContainer(buf, m, ListToken, TokensAll(items, m.start + 1), EncodeAll(items), depthLimit, left);
  }

  lemma {:induction false} ParseDict(buf: Bytes, m: Machine, pairs: Pairs, depthLimit: int, left: int)
    requires Room(buf, m, 1 + DepthPairs(pairs), |TokensPairs(pairs, m.start + 1)| + 2, depthLimit, left) && FitsPairs(pairs)
    requires At(buf, m.start, [DICT] + EncodePairs(pairs) + [END]) && (InDict(m) ==> m.stack[|m.stack| - 1].value)
    ensures var inner, code := TokensPairs(pairs, m.start + 1), EncodePairs(pairs); var r := Finished(m, DictToken, inner, code);
      r.start <= |buf| && Parse(buf, m, depthLimit, left) == Continued(buf, r, depthLimit, left - 2 - |inner|)
    decreases pairs, 2
  {
    hide EncodePairs, TokensPairs, Step, Parse, Open, Toggled, At, Grown, FitsPairs, DepthPairs, Wrapped, InDict;
    PairsShort(pairs, m.start + 1);
    OpenFacts(m, DictToken);
    ContainerText(buf, m.start, DICT, EncodePairs(pairs));
    ParsePairs(buf, Open(m, DictToken), pairs, depthLimit, left - 1);
    ParseContainer(buf, m, DictToken, TokensPairs(pairs, m.start + 1), EncodePairs(pairs), depthLimit, left);
  }

  /** The machine after a container. */
  function Finished(m: Machine, kind: Kind, inner: seq<Token>, code: Bytes): (r: Machine)
    requires StackOk(m)
    ensures StackOk(r)
  {
    Toggled(m).(start := m.start + |code| + 2, tokens := m.tokens + Wrapped(kind, m.start, inner, code))
  }

  /** A container, once it is known what happens to its content. */
  lemma ParseContainer(buf: Bytes, m: Machine, kind: Kind, inner: seq<Token>, code: Bytes, depthLimit: int, left: int)
    requires kind == DictToken || kind == ListToken
    requires StackOk(m) && |buf| <= MAX_OFFSET && |m.tokens| <= m.start && |inner| <= |code|
    requires |m.stack| + 1 < depthLimit && |inner| + 2 <= left && (InDict(m) ==> m.stack[|m.stack| - 1].value)
    requires m.start + 1 + |code| < |buf| && buf[m.start + 1 + |code|] == END && buf[m.start] == if kind == DictToken then DICT else LIST
    requires StackOk(Open(m, kind)) && Open(m, kind).start <= |buf| && Open(m, kind).start + |code| <= |buf|
    requires Parse(buf, Open(m, kind), depthLimit, left - 1) ==
             Parse(buf, Grown(Open(m, kind), |code|, inner), depthLimit, left - 1 - |inner|)
    ensures var r := Finished(m, kind, inner, code);
      r.start <= |buf| && Parse(buf, m, depthLimit, left) == Continued(buf, r, depthLimit, left - 2 - |inner|)
  {
    hide Step, Parse, Toggled, Open, Grown;
    StepOpen(buf, m, kind, depthLimit, left);
    ParseStep(buf, m, Open(m, kind), depthLimit, left);
    OpenFacts(m, kind);
    CloseContainer(buf, m, kind, inner, code, depthLimit, left);
  }

  lemma OpenFacts(m: Machine, kind: Kind)
    requires StackOk(m)
    ensures var o := Open(m, kind);
      && StackOk(o) && o.stack != [] && |o.stack| == |m.stack| + 1 && o.start == m.start + 1 && |o.tokens| == |m.tokens| + 1
      && InDict(o) == (kind == DictToken) && !o.stack[|o.stack| - 1].value
  {}

  lemma ContainerText(buf: Bytes, start: nat, c: Byte, code: Bytes)
    requires At(buf, start, [c] + code + [END])
    ensures start < |buf| && buf[start] == c && At(buf, start + 1, code + [END])
    ensures start + 1 + |code| < |buf| && buf[start + 1 + |code|] == END
  {
    assert [c] + code + [END] == [c] + (code + [END]);
    AtParts(buf, start, [c], code + [END]);
    AtByte(buf, start, [c], 0);
    AtByte(buf, start + 1, code + [END], |code|);
  }

  /** A container whose content was parsed is finished by its last byte. */
  lemma CloseContainer(buf: Bytes, m: Machine, kind: Kind, inner: seq<Token>, code: Bytes, depthLimit: int, left: int)
    requires StackOk(m) && (kind == DictToken || kind == ListToken) && |buf| <= MAX_OFFSET && |m.tokens| <= m.start && |inner| <= |code|
    requires m.start + 1 + |code| < |buf| && buf[m.start + 1 + |code|] == END && |m.stack| + 1 < depthLimit && |inner| + 2 <= left
    ensures var g := Grown(Open(m, kind), |code|, inner);
      var r := Toggled(m).(start := m.start + |code| + 2, tokens := m.tokens + Wrapped(kind, m.start, inner, code));
      && StackOk(g) && g.start <= |buf| && StackOk(r) && r.start <= |buf|
      && Parse(buf, g, depthLimit, left - 1 - |inner|) == Continued(buf, r, depthLimit, left - 2 - |inner|)
  {
    StepClose(buf, m, kind, inner, code, depthLimit, left - 1 - |inner|);
    hide Step, Parse, Continued, Toggled;
    var g := Grown(Open(m, kind), |code|, inner);
    var r := Toggled(m).(start := m.start + |code| + 2, tokens := m.tokens + Wrapped(kind, m.start, inner, code));
    ParseStep(buf, g, r, depthLimit, left - 1 - |inner|);
  }

  lemma {:induction false} ParseItems(buf: Bytes, m: Machine, es: Entries, depthLimit: int, left: int)
    requires Room(buf, m, DepthAll(es), |TokensAll(es, m.start)|, depthLimit, left) && At(buf, m.start, EncodeAll(es) + [END]) && FitsAll(es)
    requires m.stack != [] && !InDict(m)
    ensures m.start + |EncodeAll(es)| <= |buf|
    ensures Parse(buf, m, depthLimit, left) ==
            Parse(buf, Grown(m, |EncodeAll(es)|, TokensAll(es, m.start)), depthLimit, left - |TokensAll(es, m.start)|)
    decreases es, 1
  {
    hide Step, Parse, Continued, At, Grown, Encode, Tokens;
    match es
    case Nil => GrownNone(m);
    case Cons(e, rest) =>
      var n, ts := |Encode(e)|, Tokens(e, m.start);
      ItemText(buf, m.start, e, rest);
      hide EncodeAll, TokensAll;
      ItemTokens(e, rest, m.start);
      TokensShort(e, m.start);
      ParseEntry(buf, m, e, depthLimit, left);
      GrownFacts(m, n, ts);
      ListAfter(m, e);
      var g := Grown(m, n, ts);
      NotEmpty(buf, g, depthLimit, left - |ts|);
      ParseItems(buf, g, rest, depthLimit, left - |ts|);
      GrownTwice(m, n, ts, |EncodeAll(rest)|, TokensAll(rest, g.start));
  }

  lemma ListAfter(m: Machine, e: Entry)
    requires StackOk(m) && !InDict(m)
    ensures After(m, e) == Grown(m, |Encode(e)|, Tokens(e, m.start))
  {
    hide Encode, Tokens;
  }

  lemma ItemText(buf: Bytes, start: nat, e: Entry, rest: Entries)
    requires At(buf, start, EncodeAll(Cons(e, rest)) + [END])
    ensures At(buf, start, Encode(e)) && At(buf, start + |Encode(e)|, EncodeAll(rest) + [END])
    ensures start + |Encode(e)| + |EncodeAll(rest)| < |buf| && (e == Str([]) ==> start + 2 < |buf|)
  {
    hide Encode, At;
    assert EncodeAll(Cons(e, rest)) + [END] == Encode(e) + [] + (EncodeAll(rest) + [END]);
    AtThree(buf, start, Encode(e), [], EncodeAll(rest) + [END]);
    EmptyCode(e);
  }

  lemma ItemTokens(e: Entry, rest: Entries, off: nat)
    ensures |EncodeAll(Cons(e, rest))| == |Encode(e)| + |EncodeAll(rest)|
    ensures TokensAll(Cons(e, rest), off) == Tokens(e, off) + TokensAll(rest, off + |Encode(e)|)
  {
    hide Encode, Tokens;
  }

  lemma GrownNone(m: Machine)
    requires StackOk(m)
    ensures Grown(m, 0, []) == m
  {
    assert m.tokens + [] == m.tokens;
  }

  lemma EmptyCode(e: Entry)
    ensures e == Str([]) ==> |Encode(e)| == 2
  {}

  lemma {:induction false} ParsePairs(buf: Bytes, m: Machine, ps: Pairs, depthLimit: int, left: int)
    requires Room(buf, m, DepthPairs(ps), |TokensPairs(ps, m.start)|, depthLimit, left) && At(buf, m.start, EncodePairs(ps) + [END]) && FitsPairs(ps)
    requires m.stack != [] && InDict(m) && !m.stack[|m.stack| - 1].value
    ensures m.start + |EncodePairs(ps)| <= |buf|
    ensures Parse(buf, m, depthLimit, left) ==
            Parse(buf, Grown(m, |EncodePairs(ps)|, TokensPairs(ps, m.start)), depthLimit, left - |TokensPairs(ps, m.start)|)
    decreases ps, 1
  {
    hide Step, Parse, At, After, Grown, EncodeStr, Encode, Tokens;
    match ps
    case NoPairs => GrownNone(m);
    case Pair(k, v, rest) =>
      var mid := m.start + |EncodeStr(k)|;
      var n := |EncodeStr(k)| + |Encode(v)|;
      var ts := [StrToken(k, m.start)] + Tokens(v, mid);
      PairText(buf, m.start, k, v, rest);
      PairTokens(ps, m.start);
      hide EncodePairs, TokensPairs;
      TokensShort(v, mid);
      KeyStep(buf, m, k, depthLimit, left);
      ParseEntry(buf, After(m, Str(k)), v, depthLimit, left - 1);
      PairParsed(m, k, v);
      GrownFacts(m, n, ts);
      var g := Grown(m, n, ts);
      NotEmpty(buf, g, depthLimit, left - |ts|);
      ParsePairs(buf, g, rest, depthLimit, left - |ts|);
      GrownTwice(m, n, ts, |EncodePairs(rest)|, TokensPairs(rest, g.start));
  }

  lemma PairTokens(ps: Pairs, off: nat)
    requires ps.Pair?
    ensures var n := |EncodeStr(ps.key)| + |Encode(ps.value)|;
      var ts := [StrToken(ps.key, off)] + Tokens(ps.value, off + |EncodeStr(ps.key)|);
      && |EncodePairs(ps)| == n + |EncodePairs(ps.rest)| && TokensPairs(ps, off) == ts + TokensPairs(ps.rest, off + n)
  {
    hide EncodeStr, Encode, Tokens;
  }

  lemma NotEmpty(buf: Bytes, m: Machine, depthLimit: int, left: int)
    requires StackOk(m) && m.start <= |buf| && m.stack != []
    ensures Continued(buf, m, depthLimit, left) == Parse(buf, m, depthLimit, left)
  {}

  lemma GrownFacts(m: Machine, n: nat, ts: seq<Token>)
    requires StackOk(m)
    ensures var g := Grown(m, n, ts); g.start == m.start + n && |g.tokens| == |m.tokens| + |ts| && g.stack == m.stack
  {}

  lemma PairText(buf: Bytes, start: nat, k: Bytes, v: Entry, rest: Pairs)
    requires At(buf, start, EncodePairs(Pair(k, v, rest)) + [END])
    ensures var mid := start + |EncodeStr(k)|; var tail := EncodePairs(rest) + [END];
      && At(buf, start, EncodeStr(k)) && At(buf, mid, Encode(v)) && At(buf, mid + |Encode(v)|, tail)
      && mid + |Encode(v)| + |EncodePairs(rest)| < |buf| && mid < |buf|
      && (v == Str([]) ==> mid + 2 < |buf|) && (k == [] ==> start + 2 < |buf|)
  {
    hide EncodeStr, Encode, At;
    var tail := EncodePairs(rest) + [END];
    assert EncodePairs(Pair(k, v, rest)) + [END] == EncodeStr(k) + Encode(v) + tail;
    hide EncodePairs;
    AtThree(buf, start, EncodeStr(k), Encode(v), tail);
    EmptyCode(v);
    EmptyCode(Str(k));
    EncodeStrIs(k);
  }

  lemma AtThree(buf: Bytes, start: nat, a: Bytes, b: Bytes, c: Bytes)
    requires At(buf, start, a + b + c)
    ensures At(buf, start, a) && At(buf, start + |a|, b) && At(buf, start + |a| + |b|, c) && start + |a| + |b| + |c| <= |buf|
  {
    assert a + b + c == a + (b + c);
    AtParts(buf, start, a, b + c);
    AtParts(buf, start + |a|, b, c);
  }

  lemma EncodeStrIs(k: Bytes)
    ensures Encode(Str(k)) == EncodeStr(k)
  {}

  /** The key of a pair. */
  lemma KeyStep(buf: Bytes, m: Machine, k: Bytes, depthLimit: int, left: int)
    requires Room(buf, m, 0, 1, depthLimit, left) && At(buf, m.start, EncodeStr(k)) && |k| < LONGEST && (k == [] ==> m.start + 2 < |buf|)
    requires m.stack != [] && InDict(m) && !m.stack[|m.stack| - 1].value
    ensures var h := After(m, Str(k));
      && h.start <= |buf| && h.stack != [] && InDict(h) && h.stack[|h.stack| - 1].value && |h.stack| == |m.stack|
      && h.start == m.start + |EncodeStr(k)| && |h.tokens| == |m.tokens| + 1
      && Parse(buf, m, depthLimit, left) == Parse(buf, h, depthLimit, left - 1) && |h.tokens| <= h.start
  {
    hide Step, Parse, Digits;
    StepStr(buf, m, k, depthLimit, left);
    ParseStep(buf, m, After(m, Str(k)), depthLimit, left);
    KeyParsed(m, k);
  }

  lemma KeyParsed(m: Machine, k: Bytes)
    requires StackOk(m) && m.stack != [] && InDict(m) && !m.stack[|m.stack| - 1].value
    ensures var h := After(m, Str(k));
      && h.stack != [] && InDict(h) && h.stack[|h.stack| - 1].value && |h.stack| == |m.stack|
      && h.start == m.start + |EncodeStr(k)| && h.tokens == m.tokens + [StrToken(k, m.start)]
  {}

  lemma PairParsed(m: Machine, k: Bytes, v: Entry)
    requires StackOk(m) && m.stack != [] && InDict(m) && !m.stack[|m.stack| - 1].value
    ensures After(After(m, Str(k)), v) ==
            Grown(m, |EncodeStr(k)| + |Encode(v)|, [StrToken(k, m.start)] + Tokens(v, m.start + |EncodeStr(k)|))
  {
    KeyParsed(m, k);
    hide Digits, Encode, Tokens;
    var h := After(m, Str(k));
    assert h.tokens + Tokens(v, h.start) == m.tokens + ([StrToken(k, m.start)] + Tokens(v, h.start));
    var n := |m.stack| - 1;
    assert Toggled(Toggled(m)).stack == m.stack;
  }

  /** Decoding an encoding gives its tokens and no error, within the limits. */
  lemma DecodeEncoded(e: Entry, depthLimit: int, tokenLimit: int)
    requires Fits(e) && |Encode(e)| <= MAX_OFFSET && Depth(e) < depthLimit && |Tokens(e, 0)| <= tokenLimit && e != Str([])
    ensures Decode(Encode(e), depthLimit, tokenLimit) ==
            Result(Tokens(e, 0) + [Token(|Encode(e)|, EndToken, 0, 0)], NoError, |Encode(e)|)
  {
    hide Encode, Tokens, Parse, Step;
    var buf := Encode(e);
    assert buf[0..0 + |buf|] == buf;
    assert buf != [] by { TokensShort(e, 0); }
    ParseEntry(buf, EMPTY_MACHINE, e, depthLimit, tokenLimit);
    assert [] + Tokens(e, 0) == Tokens(e, 0);
  }

  // ----------------------------------------------------------- back to an entry

  /** Tokens `us` stand in the array at `i`. */
  predicate Has(ts: seq<Token>, i: nat, us: seq<Token>) { i + |us| <= |ts| && ts[i..i + |us|] == us }

  lemma HasParts(ts: seq<Token>, i: nat, a: seq<Token>, b: seq<Token>)
    requires Has(ts, i, a + b)
    ensures Has(ts, i, a) && Has(ts, i + |a|, b)
  {
    assert (a + b)[..|a|] == a && (a + b)[|a|..] == b;
    assert ts[i..i + |a|] == ts[i..i + |a + b|][..|a|];
    assert ts[i + |a|..i + |a| + |b|] == ts[i..i + |a + b|][|a|..];
  }

  lemma HasAt(ts: seq<Token>, i: nat, us: seq<Token>, k: nat)
    requires Has(ts, i, us) && k < |us|
    ensures i + k < |ts| && ts[i + k] == us[k]
  {
    assert ts[i..i + |us|][k] == ts[i + k];
  }

  lemma ConvertStr(ts: seq<Token>, buf: Bytes, i: nat, s: Bytes, off: nat)
    requires Tree(ts, |buf|) && i + 1 < |ts| && ts[i] == StrToken(s, off) && ts[i + 1].offset == off + |EncodeStr(s)| && At(buf, off, EncodeStr(s))
    ensures KeyOk(ts, buf, i) && StringAt(ts, buf, i) == s
  {
    hide Digits, Walks;
    var d := Digits(|s|);
    AtParts(buf, off, d + [COLON], s);
  }

  lemma ConvertInt(ts: seq<Token>, buf: Bytes, i: nat, v: int, off: nat)
    requires Tree(ts, |buf|) && i + 1 < |ts| && ts[i] == Token(off, IntegerToken, 1, 0) && ts[i + 1].offset == off + |Encode(Int(v))|
    requires At(buf, off, Encode(Int(v))) && -INT64_MAX <= v <= INT64_MAX
    ensures ts[i].offset + 3 <= ts[i + 1].offset <= |buf| && IntAt(ts, buf, i) == v
  {
    hide Digits, Walks, ParseInt;
    var s := if v < 0 then Digits(-v) else Digits(v);
    assert Encode(Int(v)) == [INT] + (Decimal(v) + [END]);
    AtParts(buf, off, [INT], Decimal(v) + [END]);
    AtByte(buf, off + 1, Decimal(v) + [END], 0);
    if v < 0 {
      assert Decimal(v) + [END] == [MINUS] + (s + [END]);
      AtParts(buf, off + 1, [MINUS], s + [END]);
      ReadNumber(buf, off + 2, -v, ts[i + 1].offset);
    } else {
      ReadNumber(buf, off + 1, v, ts[i + 1].offset);
    }
  }

  lemma ReadNumber(buf: Bytes, at: nat, n: nat, end: nat)
    requires At(buf, at, Digits(n) + [END]) && n <= INT64_MAX && end == at + |Digits(n)| + 1
    ensures end <= |buf| && ParseInt(buf, at, end, END, 0) == (at + |Digits(n)|, n, NoError)
  {
    hide ParseInt, Digits;
    AtParts(buf, at, Digits(n), [END]);
    AtByte(buf, at + |Digits(n)|, [END], 0);
    ValueDigits(n);
    ParseDigits(buf, at, end, END, 0, Digits(n));
  }

  lemma {:induction false} ConvertEntry(ts: seq<Token>, buf: Bytes, i: nat, e: Entry, off: nat)
    requires Tree(ts, |buf|) && Has(ts, i, Tokens(e, off)) && i + |Tokens(e, off)| < |ts|
    requires ts[i + |Tokens(e, off)|].offset == off + |Encode(e)| && At(buf, off, Encode(e)) && Fits(e) && Sorted(e)
    ensures ts[i].kind != EndToken && Convert(ts, buf, i) == e
    decreases e, 0
  {
    hide Tree, Walks, Has, At, Convert, Digits;
    match e
    case Int(v) =>
      HasAt(ts, i, Tokens(e, off), 0);
      ConvertInt(ts, buf, i, v, off);
      ConvertIs(ts, buf, i);
    case Str(s) =>
      HasAt(ts, i, Tokens(e, off), 0);
      ConvertStr(ts, buf, i, s, off);
      ConvertIs(ts, buf, i);
    case List(items) => ConvertListEntry(ts, buf, i, items, off);
    case Dict(pairs) => ConvertDictEntry(ts, buf, i, pairs, off);
  }

  lemma {:induction false} ConvertListEntry(ts: seq<Token>, buf: Bytes, i: nat, items: Entries, off: nat)
    requires Tree(ts, |buf|) && Has(ts, i, Wrapped(ListToken, off, TokensAll(items, off + 1), EncodeAll(items)))
    requires At(buf, off, [LIST] + EncodeAll(items) + [END]) && FitsAll(items) && SortedAll(items)
    ensures i < |ts| && ts[i].kind != EndToken && Convert(ts, buf, i) == List(items)
    decreases items, 2
  {
    hide Tree, Walks, Has, At, Convert, TokensAll, EncodeAll, FitsAll, SortedAll;
    HasAt(ts, i, Wrapped(ListToken, off, TokensAll(items, off + 1), EncodeAll(items)), 0);
    InnerTokens(ts, i, ListToken, off, TokensAll(items, off + 1), EncodeAll(items));
    InnerText(buf, off, LIST, EncodeAll(items));
    hide Wrapped;
    ConvertIs(ts, buf, i);
    ConvertItems(ts, buf, i + 1, items, off + 1);
  }

  lemma {:induction false} ConvertDictEntry(ts: seq<Token>, buf: Bytes, i: nat, pairs: Pairs, off: nat)
    requires Tree(ts, |buf|) && Has(ts, i, Wrapped(DictToken, off, TokensPairs(pairs, off + 1), EncodePairs(pairs)))
    requires At(buf, off, [DICT] + EncodePairs(pairs) + [END]) && FitsPairs(pairs) && SortedPairs(pairs)
    ensures i < |ts| && ts[i].kind != EndToken && Convert(ts, buf, i) == Dict(pairs)
    decreases pairs, 2
  {
    hide Tree, Walks, Has, At, Convert, TokensPairs, EncodePairs, FitsPairs, SortedPairs;
    HasAt(ts, i, Wrapped(DictToken, off, TokensPairs(pairs, off + 1), EncodePairs(pairs)), 0);
    InnerTokens(ts, i, DictToken, off, TokensPairs(pairs, off + 1), EncodePairs(pairs));
    InnerText(buf, off, DICT, EncodePairs(pairs));
    hide Wrapped;
    ConvertIs(ts, buf, i);
    ConvertPairs(ts, buf, i + 1, pairs, off + 1, NoPairs);
  }

  lemma ConvertIs(ts: seq<Token>, buf: Bytes, i: nat)
    requires Tree(ts, |buf|) && i < |ts| && ts[i].kind != EndToken
    ensures ts[i].kind == StringToken ==> KeyOk(ts, buf, i) && Convert(ts, buf, i) == Str(StringAt(ts, buf, i))
    ensures ts[i].kind == IntegerToken ==>
      i + 1 < |ts| && ts[i].offset + 3 <= ts[i + 1].offset <= |buf| && Convert(ts, buf, i) == Int(IntAt(ts, buf, i))
    ensures ts[i].kind == ListToken ==> Walks(ts, i + 1, false, true) && Convert(ts, buf, i) == List(ConvertList(ts, buf, i + 1))
    ensures ts[i].kind == DictToken ==> Walks(ts, i + 1, true, true) && Convert(ts, buf, i) == Dict(ConvertDict(ts, buf, i + 1, NoPairs))
  {
    hide Tree, Walks;
    TreeAt(ts, |buf|, i);
  }

  lemma InnerTokens(ts: seq<Token>, i: nat, kind: Kind, off: nat, inner: seq<Token>, code: Bytes)
    requires Has(ts, i, Wrapped(kind, off, inner, code))
    ensures Has(ts, i + 1, inner) && i + 1 + |inner| < |ts| && ts[i + 1 + |inner|] == Token(off + 1 + |code|, EndToken, 1, 0)
  {
    var open, end := [Token(off, kind, |inner| + 2, 0)], [Token(off + 1 + |code|, EndToken, 1, 0)];
    assert Wrapped(kind, off, inner, code) == open + (inner + end);
    HasParts(ts, i, open, inner + end);
    HasParts(ts, i + 1, inner, end);
    HasAt(ts, i + 1 + |inner|, end, 0);
  }

  lemma InnerText(buf: Bytes, off: nat, c: Byte, code: Bytes)
    requires At(buf, off, [c] + code + [END])
    ensures At(buf, off + 1, code)
  {
    hide At;
    AtThree(buf, off, [c], code, [END]);
  }

  /** The item after the first starts where the first ends. */
  lemma NextItem(ts: seq<Token>, t: nat, off: nat, us: seq<Token>, rest: seq<Token>, size: nat)
    requires Has(ts, t, us + rest) && t + |us| + |rest| < |ts|
    requires if rest == [] then ts[t + |us|].offset == off + size else rest[0].offset == off + size
    ensures Has(ts, t, us) && Has(ts, t + |us|, rest) && ts[t + |us|].offset == off + size
  {
    HasParts(ts, t, us, rest);
    if rest != [] { HasAt(ts, t + |us|, rest, 0); }
  }

  lemma {:induction false} ConvertItems(ts: seq<Token>, buf: Bytes, t: nat, es: Entries, off: nat)
    requires Tree(ts, |buf|) && Has(ts, t, TokensAll(es, off)) && t + |TokensAll(es, off)| < |ts| && Walks(ts, t, false, true)
    requires ts[t + |TokensAll(es, off)|].offset == off + |EncodeAll(es)| && ts[t + |TokensAll(es, off)|].kind == EndToken
    requires At(buf, off, EncodeAll(es)) && FitsAll(es) && SortedAll(es)
    ensures ConvertList(ts, buf, t) == es
    decreases es, 1
  {
    hide Tree, Walks, Has, At, Convert, Tokens, Encode;
    match es
    case Nil => ListEnd(ts, buf, t);
    case Cons(e, rest) =>
      var us, more := Tokens(e, off), TokensAll(rest, off + |Encode(e)|);
      AtParts(buf, off, Encode(e), EncodeAll(rest));
      FirstOffset(rest, off + |Encode(e)|);
      NextItem(ts, t, off, us, more, |Encode(e)|);
      HasAt(ts, t, us, 0);
      ConvertEntry(ts, buf, t, e, off);
      ListNext(ts, t);
      ListCons(ts, buf, t);
      hide TokensAll, EncodeAll, ConvertList;
      ConvertItems(ts, buf, t + |us|, rest, off + |Encode(e)|);
  }

  lemma ListEnd(ts: seq<Token>, buf: Bytes, t: nat)
    requires Tree(ts, |buf|) && Walks(ts, t, false, true) && t < |ts| && ts[t].kind == EndToken
    ensures ConvertList(ts, buf, t) == Nil
  {
    hide Tree;
  }

  lemma ListCons(ts: seq<Token>, buf: Bytes, t: nat)
    requires Tree(ts, |buf|) && Walks(ts, t, false, true) && t < |ts| && ts[t].kind != EndToken && Walks(ts, t + ts[t].next, false, true)
    ensures ConvertList(ts, buf, t) == Cons(Convert(ts, buf, t), ConvertList(ts, buf, t + ts[t].next))
  {
    hide Tree;
  }

  lemma FirstOffset(es: Entries, off: nat)
    ensures TokensAll(es, off) != [] ==> TokensAll(es, off)[0].offset == off
    ensures es.Nil? <==> TokensAll(es, off) == []
  {
    if es.Cons? { hide Tokens, Encode; }
  }

  function JoinedPairs(a: Pairs, b: Pairs): Pairs { if a.NoPairs? then b else Pair(a.key, a.value, JoinedPairs(a.rest, b)) }

  lemma {:induction false} BelowLast(a: Pairs, k: Bytes, v: Entry, rest: Pairs)
    requires a.Pair? && SortedPairs(JoinedPairs(a, Pair(k, v, rest)))
    ensures Less(a.key, k)
  {
    hide Less;
    assert a.rest.NoPairs? ==> JoinedPairs(a.rest, Pair(k, v, rest)) == Pair(k, v, rest);
    if a.rest.Pair? {
      BelowLast(a.rest, k, v, rest);
      LessTrans(a.key, a.rest.key, k);
    }
  }

  /** A pair whose key is above all others goes to the end. */
  lemma {:induction false} PutLast(a: Pairs, k: Bytes, v: Entry, rest: Pairs)
    requires SortedPairs(JoinedPairs(a, Pair(k, v, rest)))
    ensures JoinedPairs(PutPair(a, k, v), rest) == JoinedPairs(a, Pair(k, v, rest))
  {
    if a.Pair? {
      BelowLast(a, k, v, rest);
      LessIrreflexive(k);
      if Less(k, a.key) { LessTrans(k, a.key, k); }
      PutLast(a.rest, k, v, rest);
    }
  }

  lemma {:induction false} JoinedNone(a: Pairs)
    ensures JoinedPairs(a, NoPairs) == a
  {
    if a.Pair? { JoinedNone(a.rest); }
  }

  lemma FirstPair(ps: Pairs, off: nat)
    ensures TokensPairs(ps, off) != [] ==> TokensPairs(ps, off)[0].offset == off
    ensures ps.NoPairs? <==> TokensPairs(ps, off) == []
  {
    if ps.Pair? { hide Tokens, Encode; }
  }

  lemma {:induction false} ConvertPairs(ts: seq<Token>, buf: Bytes, t: nat, ps: Pairs, off: nat, soFar: Pairs)
    requires Tree(ts, |buf|) && Has(ts, t, TokensPairs(ps, off)) && t + |TokensPairs(ps, off)| < |ts| && Walks(ts, t, true, true)
    requires ts[t + |TokensPairs(ps, off)|].offset == off + |EncodePairs(ps)| && ts[t + |TokensPairs(ps, off)|].kind == EndToken
    requires At(buf, off, EncodePairs(ps)) && FitsPairs(ps) && SortedPairs(ps) && SortedPairs(JoinedPairs(soFar, ps))
    ensures ConvertDict(ts, buf, t, soFar) == JoinedPairs(soFar, ps)
    decreases ps, 1
  {
    hide Tree, Walks, Has, At, Convert, Tokens, Encode, EncodeStr;
    match ps
    case NoPairs =>
      DictEnd(ts, buf, t, soFar);
      JoinedNone(soFar);
    case Pair(k, v, rest) =>
      var mid := off + |EncodeStr(k)|;
      PairParts(ts, buf, t, k, v, rest, off);
      hide TokensPairs, EncodePairs;
      ConvertStr(ts, buf, t, k, off);
      ConvertEntry(ts, buf, t + 1, v, mid);
      PairNext(ts, t);
      DictCons(ts, buf, t, soFar);
      PutLast(soFar, k, v, rest);
      hide ConvertDict, JoinedPairs, PutPair;
      ConvertPairs(ts, buf, t + 1 + |Tokens(v, mid)|, rest, mid + |Encode(v)|, PutPair(soFar, k, v));
  }

  /** Where the tokens and the text of a pair are. */
  lemma PairParts(ts: seq<Token>, buf: Bytes, t: nat, k: Bytes, v: Entry, rest: Pairs, off: nat)
    requires var ps := Pair(k, v, rest);
      && Has(ts, t, TokensPairs(ps, off)) && t + |TokensPairs(ps, off)| < |ts|
      && ts[t + |TokensPairs(ps, off)|].offset == off + |EncodePairs(ps)| && At(buf, off, EncodePairs(ps))
    ensures var mid := off + |EncodeStr(k)|; var us, after := Tokens(v, mid), mid + |Encode(v)|; var more := TokensPairs(rest, after);
      && ts[t] == StrToken(k, off) && Has(ts, t + 1, us) && ts[t + 1].offset == mid && ts[t + 1].next == |us|
      && t + 1 + |us| < |ts| && ts[t + 1 + |us|].offset == after && Has(ts, t + 1 + |us|, more)
      && |TokensPairs(Pair(k, v, rest), off)| == 1 + |us| + |more|
      && |EncodePairs(Pair(k, v, rest))| == |EncodeStr(k)| + |Encode(v)| + |EncodePairs(rest)|
      && At(buf, off, EncodeStr(k)) && At(buf, mid, Encode(v)) && At(buf, after, EncodePairs(rest))
  {
    hide Has, At, Tokens, Encode, EncodeStr;
    var ps := Pair(k, v, rest);
    var mid := off + |EncodeStr(k)|;
    var us, more := Tokens(v, mid), TokensPairs(rest, mid + |Encode(v)|);
    assert EncodePairs(ps) == EncodeStr(k) + Encode(v) + EncodePairs(rest);
    AtThree(buf, off, EncodeStr(k), Encode(v), EncodePairs(rest));
    FirstPair(rest, mid + |Encode(v)|);
    assert TokensPairs(ps, off) == [StrToken(k, off)] + (us + more);
    hide TokensPairs, EncodePairs;
    NextItem(ts, t, off, [StrToken(k, off)], us + more, |EncodeStr(k)|);
    NextItem(ts, t + 1, mid, us, more, |Encode(v)|);
    HasAt(ts, t, [StrToken(k, off)], 0);
    HasAt(ts, t + 1, us, 0);
  }

  lemma DictEnd(ts: seq<Token>, buf: Bytes, t: nat, soFar: Pairs)
    requires Tree(ts, |buf|) && Walks(ts, t, true, true) && t < |ts| && ts[t].kind == EndToken
    ensures ConvertDict(ts, buf, t, soFar) == soFar
  {
    hide Tree, Walks;
  }

  lemma DictCons(ts: seq<Token>, buf: Bytes, t: nat, soFar: Pairs)
    requires Tree(ts, |buf|) && Walks(ts, t, true, true) && t < |ts| && ts[t].kind != EndToken && KeyOk(ts, buf, t)
    requires var v := t + ts[t].next; v < |ts| && ts[v].kind != EndToken && Walks(ts, v + ts[v].next, true, true)
    ensures var v := t + ts[t].next;
      ConvertDict(ts, buf, t, soFar) == ConvertDict(ts, buf, v + ts[v].next, PutPair(soFar, StringAt(ts, buf, t), Convert(ts, buf, v)))
  {
    hide Tree, Walks, KeyOk, StringAt;
  }

  /** Decoding the canonical encoding of an entry and converting the tree gives the
      entry back, for every entry within the size, depth, token and header limits but
      the empty string on its own. */
  lemma RoundTrip(e: Entry, depthLimit: int, tokenLimit: int)
    requires Fits(e) && Sorted(e) && e != Str([])
    requires |Encode(e)| <= MAX_OFFSET && Depth(e) < depthLimit && |Tokens(e, 0)| <= tokenLimit
    ensures var r := Decode(Encode(e), depthLimit, tokenLimit);
      r.err == NoError && Tree(r.tokens, |Encode(e)|) && r.tokens[0].kind != EndToken && Convert(r.tokens, Encode(e), 0) == e
  {
    hide Encode, Tokens, Decode, Tree, Convert;
    var buf := Encode(e);
    DecodeEncoded(e, depthLimit, tokenLimit);
    DecodeTree(buf, depthLimit, tokenLimit);
    var ts := Tokens(e, 0) + [Token(|buf|, EndToken, 0, 0)];
    assert ts[0..0 + |Tokens(e, 0)|] == Tokens(e, 0);
    assert buf[0..0 + |buf|] == buf;
    ConvertEntry(ts, buf, 0, e, 0);
  }

  /** The empty string on its own, `0:`, is refused whatever the limits: after the colon
      the parser wants more input. */
  lemma EmptyStringRefused(depthLimit: int, tokenLimit: int)
    ensures Encode(Str([])) == [ZERO, COLON] && Decode(Encode(Str([])), depthLimit, tokenLimit).err != NoError
  {
    assert Digits(0) == [ZERO];
    var buf := [ZERO, COLON];
    assert Step(buf, EMPTY_MACHINE, depthLimit, tokenLimit).Fail?;
  }

  /** Within the limits the empty string is the only entry that does not come back. */
  lemma RoundTripExactly(e: Entry, depthLimit: int, tokenLimit: int)
    requires Fits(e) && Sorted(e)
    requires |Encode(e)| <= MAX_OFFSET && Depth(e) < depthLimit && |Tokens(e, 0)| <= tokenLimit
    ensures Decode(Encode(e), depthLimit, tokenLimit).err == NoError <==> e != Str([])
  {
    hide Encode, Tokens, Decode, Tree, Convert;
    if e == Str([]) { EmptyStringRefused(depthLimit, tokenLimit); } else { RoundTrip(e, depthLimit, tokenLimit); }
  }

  /** After an error the tree is well formed, but a string in it may be too long: in
      `d3:abc5` the key reads as four bytes, because the value's first digit was already
      passed when the end of the input was noticed. */
  lemma KeyTooLong()
    ensures var buf := [DICT, ZERO + 3, COLON, 97, 98, 99, ZERO + 5]; var r := Decode(buf, 10, 10);
      && r.err == UnexpectedEof && |r.tokens| == 6 && r.tokens[1].kind == StringToken
      && r.tokens[2].offset - r.tokens[1].offset - r.tokens[1].header - 2 == 4
  {
    var buf: Bytes := [DICT, ZERO + 3, COLON, 97, 98, 99, ZERO + 5];
    var m1 := Machine(1, [Token(0, DictToken, 0, 0)], [Frame(0, false)]);
    assert Step(buf, EMPTY_MACHINE, 10, 10) == Go(m1) by { assert Toggled(EMPTY_MACHINE) == EMPTY_MACHINE; }
    var m2 := Machine(6, m1.tokens + [Token(1, StringToken, 1, 0)], [Frame(0, true)]);
    assert ParseInt(buf, 2, 7, COLON, 3) == (2, 3, NoError);
    assert Step(buf, m1, 10, 9) == Go(m2);
    assert Step(buf, m2, 10, 8) == Fail(m2.(start := 7), UnexpectedEof, 7);
    assert Parse(buf, m2, 10, 8) == Fail(m2.(start := 7), UnexpectedEof, 7);
    assert Parse(buf, m1, 10, 9) == Parse(buf, m2, 10, 8);
    assert Parse(buf, EMPTY_MACHINE, 10, 10) == Parse(buf, m1, 10, 9);
    var u := CloseTop(m2.(start := 7));
    assert Unwind(m2.(start := 7)) == Unwind(u) == u;
  }
}
