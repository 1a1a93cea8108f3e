/** UTF-8 (RFC 3629) and UTF-16 (RFC 2781) as the standards define them, and the test for
    a legal UTF-8 character. */
module Unicode {

  type Byte = x: int | 0 <= x < 0x100
  type Word = x: int | 0 <= x < 0x1_0000
  type Long = x: int | 0 <= x < 0x1_0000_0000

  const REPLACEMENT := 0xFFFD
  const MAX_BMP := 0xFFFF
  const MAX_LEGAL := 0x10FFFF
  const HIGH_START := 0xD800
  const HIGH_END := 0xDBFF
  const LOW_START := 0xDC00
  const LOW_END := 0xDFFF
  const HALF_BASE := 0x10000

  predicate High(w: int) { HIGH_START <= w <= HIGH_END }

  predicate Low(w: int) { LOW_START <= w <= LOW_END }

  /** A Unicode code point that stands for a character. */
  type ScalarValue = cp: int | 0 <= cp < 0xD800 || 0xE000 <= cp < 0x110000

  predicate Scalar(cp: int) { 0 <= cp <= MAX_LEGAL && !High(cp) && !Low(cp) }

  // -------------------------------------------------------------------- RFC 3629

  predicate Tail(b: Byte) { 0x80 <= b <= 0xBF }

  /** UTF8-char of section 4 of RFC 3629. */
  predicate Utf8Char(s: seq<Byte>) {
    match |s|
    case 1 => s[0] <= 0x7F
    case 2 => 0xC2 <= s[0] <= 0xDF && Tail(s[1])
    case 3 =>
      && Tail(s[2])
      && (|| (s[0] == 0xE0 && 0xA0 <= s[1] <= 0xBF)
          || (0xE1 <= s[0] <= 0xEC && Tail(s[1]))
          || (s[0] == 0xED && 0x80 <= s[1] <= 0x9F)
          || (0xEE <= s[0] <= 0xEF && Tail(s[1])))
    case 4 =>
      && Tail(s[2]) && Tail(s[3])
      && (|| (s[0] == 0xF0 && 0x90 <= s[1] <= 0xBF)
          || (0xF1 <= s[0] <= 0xF3 && Tail(s[1]))
          || (s[0] == 0xF4 && 0x80 <= s[1] <= 0x8F))
    case _ => false
  }

  /** UTF8-octets: any number of characters. */
  ghost predicate Utf8Octets(s: seq<Byte>)
    decreases |s|
  {
    s == [] || exists n: nat :: 0 < n <= |s| && Utf8Char(s[..n]) && Utf8Octets(s[n..])
  }

  /** The octets of a code point: section 3 of RFC 3629. */
  function Utf8Of(cp: int): (s: seq<Byte>)
    requires 0 <= cp <= MAX_LEGAL
  {
    if cp < 0x80 then [cp]
    else if cp < 0x800 then [0xC0 + cp / 64, 0x80 + cp % 64]
    else if cp < 0x10000 then [0xE0 + cp / 4096, 0x80 + cp / 64 % 64, 0x80 + cp % 64]
    else [0xF0 + cp / 262144, 0x80 + cp / 4096 % 64, 0x80 + cp / 64 % 64, 0x80 + cp % 64]
  }

  /** The code point of a character. */
  function CodePoint(s: seq<Byte>): int
    requires Utf8Char(s)
  {
    match |s|
    case 1 => s[0]
    case 2 => Code2(s[0], s[1])
    case 3 => Code3(s[0], s[1], s[2])
    case _ => Code4(s[0], s[1], s[2], s[3])
  }

  function Code2(a: int, b: int): int { (a - 0xC0) * 64 + (b - 0x80) }
  function Code3(a: int, b: int, c: int): int { (a - 0xE0) * 4096 + (b - 0x80) * 64 + (c - 0x80) }
  function Code4(a: int, b: int, c: int, d: int): int { (a - 0xF0) * 262144 + (b - 0x80) * 4096 + (c - 0x80) * 64 + (d - 0x80) }

  lemma Parts2(a: int, b: int)
    requires 0x80 <= b <= 0xBF
    ensures var cp := Code2(a, b); a == 0xC0 + cp / 64 && b == 0x80 + cp % 64
  {}

  lemma Parts3(a: int, b: int, c: int)
    requires 0x80 <= b <= 0xBF && 0x80 <= c <= 0xBF
    ensures var cp := Code3(a, b, c); a == 0xE0 + cp / 4096 && b == 0x80 + cp / 64 % 64 && c == 0x80 + cp % 64
  {
    var cp := Code3(a, b, c);
    assert cp / 64 == (a - 0xE0) * 64 + (b - 0x80);
  }

  lemma Parts4(a: int, b: int, c: int, d: int)
    requires 0x80 <= b <= 0xBF && 0x80 <= c <= 0xBF && 0x80 <= d <= 0xBF
    ensures var cp := Code4(a, b, c, d);
      a == 0xF0 + cp / 262144 && b == 0x80 + cp / 4096 % 64 && c == 0x80 + cp / 64 % 64 && d == 0x80 + cp % 64
  {
    var cp := Code4(a, b, c, d);
    assert cp / 64 == (a - 0xF0) * 4096 + (b - 0x80) * 64 + (c - 0x80);
    assert cp / 4096 == (a - 0xF0) * 64 + (b - 0x80);
  }

  /** The grammar admits exactly the encodings of characters, each once. */
  lemma CharCodes(s: seq<Byte>)
    requires Utf8Char(s)
    ensures Scalar(CodePoint(s)) && Utf8Of(CodePoint(s)) == s
  {
    match |s|
    case 1 => assert s == [s[0]];
    case 2 =>
      assert s == [s[0], s[1]];
      Parts2(s[0], s[1]);
    case 3 =>
      assert s == [s[0], s[1], s[2]];
      Parts3(s[0], s[1], s[2]);
    case _ =>
      assert s == [s[0], s[1], s[2], s[3]];
      Parts4(s[0], s[1], s[2], s[3]);
  }

  lemma Whole2(cp: int)
    ensures Code2(0xC0 + cp / 64, 0x80 + cp % 64) == cp
  {}

  lemma Whole3(cp: int)
    ensures Code3(0xE0 + cp / 4096, 0x80 + cp / 64 % 64, 0x80 + cp % 64) == cp
  {
    assert cp / 4096 == cp / 64 / 64;
  }

  lemma Whole4(cp: int)
    ensures Code4(0xF0 + cp / 262144, 0x80 + cp / 4096 % 64, 0x80 + cp / 64 % 64, 0x80 + cp % 64) == cp
  {
    assert cp / 4096 == cp / 64 / 64 && cp / 262144 == cp / 4096 / 64;
  }

  lemma CodeChars(cp: int)
    requires Scalar(cp)
    ensures Utf8Char(Utf8Of(cp)) && CodePoint(Utf8Of(cp)) == cp
  {
    if cp < 0x80 {
    } else if cp < 0x800 {
      Whole2(cp);
    } else if cp < 0x10000 {
      Whole3(cp);
    } else {
      Whole4(cp);
    }
  }

  // -------------------------------------------------------------------- RFC 2781

  /** Section 2.1 of RFC 2781. */
  function Utf16Of(cp: int): (s: seq<Word>)
    requires 0 <= cp <= MAX_LEGAL
  {
    if cp < HALF_BASE then [cp]
    else [HIGH_START + (cp - HALF_BASE) / 1024, LOW_START + (cp - HALF_BASE) % 1024]
  }

  /** Section 2.2 of RFC 2781. */
  function Pair(high: int, low: int): int { (high - HIGH_START) * 1024 + (low - LOW_START) + HALF_BASE }

  /** A sequence of words in which surrogates stand in pairs only. */
  predicate Utf16Words(s: seq<Word>)
    decreases |s|
  {
    || s == []
    || (!High(s[0]) && !Low(s[0]) && Utf16Words(s[1..]))
    || (|s| > 1 && High(s[0]) && Low(s[1]) && Utf16Words(s[2..]))
  }

  /** A surrogate pair and the code point it stands for determine each other. */
  lemma PairCodes(high: int, low: int)
    requires High(high) && Low(low)
    ensures HALF_BASE <= Pair(high, low) <= MAX_LEGAL && Utf16Of(Pair(high, low)) == [high, low]
  {}

  lemma CodePairs(cp: int)
    requires HALF_BASE <= cp <= MAX_LEGAL
    ensures var s := Utf16Of(cp); |s| == 2 && High(s[0]) && Low(s[1]) && Pair(s[0], s[1]) == cp
  {}

  // ------------------------------------------------------------- reading UTF-8

  /** trailingBytesForUTF8. */
  function Trailing(b: Byte): nat {
    if b < 0xC0 then 0 else if b < 0xE0 then 1 else if b < 0xF0 then 2 else if b < 0xF8 then 3 else if b < 0xFC then 4 else 5
  }

  /** offsetsFromUTF8: what the length marks of the bytes add up to. */
  const OFFSETS: seq<int> := [0x00000000, 0x00003080, 0x000E2080, 0x03C82080, 0xFA082080, 0x82082080]

  /** isLegalUTF8, for the `length` bytes from `at` on. */
  predicate IsLegal(s: seq<Byte>, at: nat, length: nat)
    requires 0 < length && at + length <= |s|
  {
    && length <= 4
    && (length == 4 ==> Tail(s[at + 3]))
    && (length >= 3 ==> Tail(s[at + 2]))
    && (length >= 2 ==>
          && Tail(s[at + 1])
          && (s[at] == 0xE0 ==> s[at + 1] >= 0xA0) && (s[at] == 0xED ==> s[at + 1] <= 0x9F)
          && (s[at] == 0xF0 ==> s[at + 1] >= 0x90) && (s[at] == 0xF4 ==> s[at + 1] <= 0x8F))
    && !(0x80 <= s[at] < 0xC2)
    && s[at] <= 0xF4
  }

  /** With the length its first byte asks for, a byte sequence is legal exactly if it is a
      character of the grammar. */
  lemma LegalIsGrammar(s: seq<Byte>, at: nat)
    requires at < |s| && at + Trailing(s[at]) < |s|
    ensures IsLegal(s, at, Trailing(s[at]) + 1) <==> Utf8Char(s[at..at + Trailing(s[at]) + 1])
  {}

  /** No character of the grammar has another length. */
  lemma GrammarLength(s: seq<Byte>)
    requires Utf8Char(s)
    ensures |s| == Trailing(s[0]) + 1
  {}

  method IsLegalUTF8(s: seq<Byte>, at: nat, length: nat) returns (legal: bool)
    requires 0 < length && at + length <= |s|
    ensures legal == IsLegal(s, at, length)
  {
    var src := at + length;
    if length > 4 { return false; }
    var a := s[at];
    if length >= 4 {
      src := src - 1;
      a := s[src];
      if a < 0x80 || a > 0xBF { return false; }
    }
    if length >= 3 {
      src := src - 1;
      a := s[src];
      if a < 0x80 || a > 0xBF { return false; }
    }
    if length >= 2 {
      src := src - 1;
      a := s[src];
      if a < 0x80 || a > 0xBF { return false; }
      match s[at]
      case 0xE0 => if a < 0xA0 { return false; }
      case 0xED => if a > 0x9F { return false; }
      case 0xF0 => if a < 0x90 { return false; }
      case 0xF4 => if a > 0x8F { return false; }
      case _ => if a < 0x80 { return false; }
    }
    if s[at] >= 0x80 && s[at] < 0xC2 { return false; }
    if s[at] > 0xF4 { return false; }
    return true;
  }

  /** The bytes put together with shifts, before the marks are taken off. */
  function Packed(s: seq<Byte>, at: nat, extra: nat): int
    requires at + extra < |s|
  {
    if extra == 0 then s[at] else Packed(s, at, extra - 1) * 64 + s[at + extra]
  }

  lemma PackedCode(s: seq<Byte>, at: nat)
    requires at < |s| && at + Trailing(s[at]) < |s| && IsLegal(s, at, Trailing(s[at]) + 1)
    ensures Packed(s, at, Trailing(s[at])) - OFFSETS[Trailing(s[at])] == CodePoint(s[at..at + Trailing(s[at]) + 1])
  {
    LegalIsGrammar(s, at);
    var n := Trailing(s[at]);
    if n == 1 {
      assert Packed(s, at, 1) == (s[at] as int) * 64 + s[at + 1];
    } else if n == 2 {
      assert Packed(s, at, 1) == (s[at] as int) * 64 + s[at + 1];
      assert Packed(s, at, 2) == Packed(s, at, 1) * 64 + s[at + 2];
    } else if n == 3 {
      assert Packed(s, at, 1) == (s[at] as int) * 64 + s[at + 1];
      assert Packed(s, at, 2) == Packed(s, at, 1) * 64 + s[at + 2];
      assert Packed(s, at, 3) == Packed(s, at, 2) * 64 + s[at + 3];
    }
  }
}
