/** ConvertUTF.cpp: the converters between UTF-8, UTF-16 and UTF-32. */
module ConvertUTF {
  import opened Transcode
  import opened Unicode
  import opened UnicodeText

  // ----------------------------------------------------- one round of each loop

  lemma PackedScalar(s: seq<Byte>, i: nat)
    requires i < |s| && i + Trailing(s[i]) < |s| && IsLegal(s, i, Trailing(s[i]) + 1)
    ensures var u := s[i..i + Trailing(s[i]) + 1];
      Utf8Char(u) && Packed(s, i, Trailing(s[i])) - OFFSETS[Trailing(s[i])] == CodePoint(u) && Scalar(CodePoint(u)) && Utf8Of(CodePoint(u)) == u
  {
    LegalIsGrammar(s, i);
    PackedCode(s, i);
    CharCodes(s[i..i + Trailing(s[i]) + 1]);
  }

  /** Reads a UTF-8 character and hands its code point on. */
  function Read8<T>(s: seq<Byte>, i: nat, target: (nat, nat) -> Item<T>): Item<T> {
    if i >= |s| || i + Trailing(s[i]) >= |s| then Partial
    else if !IsLegal(s, i, Trailing(s[i]) + 1) then Illegal
    else (PackedScalar(s, i); target(Packed(s, i, Trailing(s[i])) - OFFSETS[Trailing(s[i])], Trailing(s[i]) + 1))
  }

  function ToUtf16(ch: nat, strict: bool, len: nat): Item<Word> {
    if ch <= MAX_BMP then
      if HIGH_START <= ch <= LOW_END then (if strict then Illegal else Char(len, [REPLACEMENT], false))
      else Char(len, [ch], false)
    else if ch > MAX_LEGAL then (if strict then Illegal else Char(len, [REPLACEMENT], false))
    else Char(len, Utf16Of(ch), false)
  }

  function ToUtf32(ch: nat, strict: bool, len: nat): Item<Long> {
    if ch <= MAX_LEGAL then
      if HIGH_START <= ch <= LOW_END then (if strict then Illegal else Char(len, [REPLACEMENT], false))
      else Char(len, [ch], false)
    else Char(len, [REPLACEMENT], true)
  }

  function Read8to16(strict: bool): Reader<Byte, Word> {
    (s: seq<Byte>, i: nat) => Read8(s, i, (ch: nat, len: nat) => ToUtf16(ch, strict, len))
  }

  function Read8to32(strict: bool): Reader<Byte, Long> {
    (s: seq<Byte>, i: nat) => Read8(s, i, (ch: nat, len: nat) => ToUtf32(ch, strict, len))
  }

  function Read16to8(strict: bool): Reader<Word, Byte> {
    (s: seq<Word>, i: nat) =>
      if i >= |s| then Partial
      else if High(s[i]) then
        if i + 1 >= |s| then Partial
        else if Low(s[i + 1]) then (PairCodes(s[i], s[i + 1]); Char(2, Utf8Of(Pair(s[i], s[i + 1])), false))
        else if strict then Illegal
        else Char(1, Utf8Of(s[i]), false)
      else if strict && Low(s[i]) then Illegal
      else Char(1, Utf8Of(s[i]), false)
  }

  function Read32to8(strict: bool): Reader<Long, Byte> {
    (s: seq<Long>, i: nat) =>
      if i >= |s| then Partial
      else if strict && HIGH_START <= s[i] <= LOW_END then Illegal
      else if s[i] <= MAX_LEGAL then Char(1, Utf8Of(s[i]), false)
      else Char(1, Utf8Of(REPLACEMENT), true)
  }

  // -------------------------------------------------------------- they are sane

  lemma {:induction false} PackedPrefix(s: seq<Byte>, n: nat, i: nat, extra: nat)
    requires n <= |s| && i + extra < n
    ensures Packed(s[..n], i, extra) == Packed(s, i, extra)
  {
    if extra > 0 { PackedPrefix(s, n, i, extra - 1); }
  }

  lemma Read8Prefix<T>(s: seq<Byte>, n: nat, i: nat, target: (nat, nat) -> Item<T>)
    requires i < n <= |s|
    ensures if i + Trailing(s[i]) >= n then Read8(s[..n], i, target).Partial? else Read8(s[..n], i, target) == Read8(s, i, target)
  {
    hide Packed, Trailing;
    if i + Trailing(s[i]) < n { PackedPrefix(s, n, i, Trailing(s[i])); }
  }

  lemma Sane8to16(strict: bool)
    ensures Sane(Read8to16(strict))
  {
    var read := Read8to16(strict);
    var target := (ch: nat, len: nat) => ToUtf16(ch, strict, len);
    forall s: seq<Byte>, i: nat
      ensures read(s, i) == Read8(s, i, target)
      ensures i < |s| && read(s, i).Char? ==> read(s, i).len == Trailing(s[i]) + 1 && i + Trailing(s[i]) < |s|
    {
      if i < |s| && read(s, i).Char? { PackedScalar(s, i); }
    }
    forall s: seq<Byte>, i: nat, n: nat | i < n <= |s|
      ensures if i + Trailing(s[i]) >= n then read(s[..n], i).Partial? else read(s[..n], i) == read(s, i)
    {
      Read8Prefix(s, n, i, target);
    }
    hide Packed, Trailing, IsLegal;
  }

  lemma Sane8to32(strict: bool)
    ensures Sane(Read8to32(strict))
  {
    var read := Read8to32(strict);
    var target := (ch: nat, len: nat) => ToUtf32(ch, strict, len);
    forall s: seq<Byte>, i: nat
      ensures read(s, i) == Read8(s, i, target)
      ensures i < |s| && read(s, i).Char? ==> read(s, i).len == Trailing(s[i]) + 1 && i + Trailing(s[i]) < |s|
    {
      if i < |s| && read(s, i).Char? { PackedScalar(s, i); }
    }
    forall s: seq<Byte>, i: nat, n: nat | i < n <= |s|
      ensures if i + Trailing(s[i]) >= n then read(s[..n], i).Partial? else read(s[..n], i) == read(s, i)
    {
      Read8Prefix(s, n, i, target);
    }
    hide Packed, Trailing, IsLegal;
  }

  lemma Sane16to8(strict: bool)
    ensures Sane(Read16to8(strict))
  {}

  lemma Sane32to8(strict: bool)
    ensures Sane(Read32to8(strict))
  {}

  // ------------------------------------------------------- what they translate

  function Utf8(cp: ScalarValue): seq<Byte> { Utf8Of(cp) }

  function Utf16(cp: ScalarValue): seq<Word> { Utf16Of(cp) }

  function Utf32(cp: ScalarValue): seq<Long> { [cp] }

  lemma Read8Recognizes<T>(s: seq<Byte>, i: nat, cp: ScalarValue, target: (nat, nat) -> Item<T>)
    requires StartsAt(s, i, Utf8(cp))
    ensures Read8(s, i, target) == target(cp, |Utf8(cp)|)
  {
    CodeChars(cp);
    hide Packed, IsLegal, CodePoint, Utf8Of, Utf8Char;
    assert Utf8(cp) == s[i..i + |Utf8(cp)|];
    GrammarLength(Utf8(cp));
    assert s[i] == Utf8(cp)[0];
    LegalIsGrammar(s, i);
    PackedScalar(s, i);
  }

  lemma Read8Legal<T>(s: seq<Byte>, i: nat, target: (nat, nat) -> Item<T>) returns (cp: ScalarValue)
    requires !Read8(s, i, target).Partial?
    requires !Read8(s, i, target).Illegal?
    ensures StartsAt(s, i, Utf8(cp))
  {
    PackedScalar(s, i);
    cp := CodePoint(s[i..i + Trailing(s[i]) + 1]);
  }

  lemma Translates8to16(strict: bool)
    ensures Translates(Read8to16(strict), Utf8, Utf16)
  {
    var read := Read8to16(strict);
    var target := (ch: nat, len: nat) => ToUtf16(ch, strict, len);
    forall s: seq<Byte>, i: nat, cp: ScalarValue | StartsAt(s, i, Utf8(cp))
      ensures read(s, i) == Char(|Utf8(cp)|, Utf16(cp), false)
    {
      Read8Recognizes(s, i, cp, target);
    }
    forall s: seq<Byte>, i: nat | i < |s| && read(s, i).Char?
      ensures exists cp: ScalarValue :: StartsAt(s, i, Utf8(cp))
    {
      var cp := Read8Legal(s, i, target);
    }
    hide Utf8Of, Utf16Of;
  }

  lemma Translates8to32(strict: bool)
    ensures Translates(Read8to32(strict), Utf8, Utf32)
  {
    var read := Read8to32(strict);
    var target := (ch: nat, len: nat) => ToUtf32(ch, strict, len);
    forall s: seq<Byte>, i: nat, cp: ScalarValue | StartsAt(s, i, Utf8(cp))
      ensures read(s, i) == Char(|Utf8(cp)|, Utf32(cp), false)
    {
      Read8Recognizes(s, i, cp, target);
    }
    forall s: seq<Byte>, i: nat | i < |s| && read(s, i).Char?
      ensures exists cp: ScalarValue :: StartsAt(s, i, Utf8(cp))
    {
      var cp := Read8Legal(s, i, target);
    }
    hide Utf8Of;
  }

  lemma Translates16to8()
    ensures Translates(Read16to8(true), Utf16, Utf8)
  {
    var read := Read16to8(true);
    hide Utf8Of;
    forall s: seq<Word>, i: nat, cp: ScalarValue | StartsAt(s, i, Utf16(cp))
      ensures read(s, i) == Char(|Utf16(cp)|, Utf8(cp), false)
    {
      assert Utf16(cp) == s[i..i + |Utf16(cp)|];
      assert s[i] == Utf16(cp)[0];
      if cp >= HALF_BASE {
        CodePairs(cp);
        assert s[i + 1] == Utf16(cp)[1];
      }
    }
    forall s: seq<Word>, i: nat | i < |s| && read(s, i).Char?
      ensures exists cp: ScalarValue :: StartsAt(s, i, Utf16(cp))
    {
      if High(s[i]) {
        PairCodes(s[i], s[i + 1]);
        assert StartsAt(s, i, Utf16(Pair(s[i], s[i + 1])));
      } else {
        assert StartsAt(s, i, Utf16(s[i]));
      }
    }
  }

  lemma Translates32to8()
    ensures Translates(Read32to8(true), Utf32, Utf8)
  {
    var read := Read32to8(true);
    hide Utf8Of;
    forall s: seq<Long>, i: nat, cp: ScalarValue | StartsAt(s, i, Utf32(cp))
      ensures read(s, i) == Char(|Utf32(cp)|, Utf8(cp), false)
    {
      assert s[i..i + 1][0] == s[i];
    }
    forall s: seq<Long>, i: nat | i < |s| && read(s, i).Char? && !read(s, i).odd
      ensures exists cp: ScalarValue :: StartsAt(s, i, Utf32(cp))
    {
      assert StartsAt(s, i, Utf32(s[i]));
    }
  }

  // --------------------------------------------------------------- the standards

  /** The grammar of RFC 3629 describes the text in UTF-8. */
  lemma {:induction false} OctetsAreText(s: seq<Byte>)
    ensures Utf8Octets(s) <==> IsText(Utf8, s)
    decreases |s|
  {
    hide Utf8Char, CodePoint;
    if Utf8Octets(s) {
      var cps := OctetsText(s);
    }
    if cps: seq<ScalarValue> :| s == Text(Utf8, cps) {
      TextOctets(cps);
    }
  }

  lemma {:induction false} OctetsText(s: seq<Byte>) returns (cps: seq<ScalarValue>)
    requires Utf8Octets(s)
    ensures s == Text(Utf8, cps)
    decreases |s|
  {
    hide Utf8Char, CodePoint, Utf8Of;
    if s == [] {
      cps := [];
    } else {
      var n: nat :| 0 < n <= |s| && Utf8Char(s[..n]) && Utf8Octets(s[n..]);
      CharCodes(s[..n]);
      var rest := OctetsText(s[n..]);
      cps := [CodePoint(s[..n])] + rest;
      assert cps[1..] == rest && s == s[..n] + s[n..];
    }
  }

  lemma {:induction false} TextOctets(cps: seq<ScalarValue>)
    ensures Utf8Octets(Text(Utf8, cps))
  {
    hide Utf8Char, CodePoint;
    if cps != [] {
      var s := Text(Utf8, cps);
      var n := |Utf8(cps[0])|;
      CodeChars(cps[0]);
      TextOctets(cps[1..]);
      assert s[..n] == Utf8(cps[0]) && s[n..] == Text(Utf8, cps[1..]);
    }
  }

  /** The words of RFC 2781 are the text in UTF-16. */
  lemma WordsAreText(s: seq<Word>)
    ensures Utf16Words(s) <==> IsText(Utf16, s)
  {
    if Utf16Words(s) {
      var cps := WordsText(s);
    }
    if cps: seq<ScalarValue> :| s == Text(Utf16, cps) {
      TextWords(cps);
    }
  }

  lemma {:induction false} WordsText(s: seq<Word>) returns (cps: seq<ScalarValue>)
    requires Utf16Words(s)
    ensures s == Text(Utf16, cps)
    decreases |s|
  {
    if s == [] {
      cps := [];
    } else if High(s[0]) {
      var rest := WordsText(s[2..]);
      PairCodes(s[0], s[1]);
      cps := [Pair(s[0], s[1])] + rest;
      assert cps[1..] == rest && s == [s[0], s[1]] + s[2..];
    } else {
      var rest := WordsText(s[1..]);
      cps := [s[0]] + rest;
      assert cps[1..] == rest && s == [s[0]] + s[1..];
    }
  }

  lemma {:induction false} TextWords(cps: seq<ScalarValue>)
    ensures Utf16Words(Text(Utf16, cps))
  {
    if cps != [] {
      var s := Text(Utf16, cps);
      TextWords(cps[1..]);
      if cps[0] >= HALF_BASE { CodePairs(cps[0]); }
      assert s[|Utf16(cps[0])|..] == Text(Utf16, cps[1..]);
    }
  }

  /** ConvertUTF8toUTF16, strict or not, succeeds exactly on the octets of RFC 3629. */
  lemma Accepts8to16(s: seq<Byte>, strict: bool)
    ensures Sane(Read8to16(strict))
    ensures Whole(Read8to16(strict), s, 0).result == ConversionOK <==> Utf8Octets(s)
  {
    hide *;
    Sane8to16(strict);
    Translates8to16(strict);
    TranslatesText(Read8to16(strict), Utf8, Utf16, s);
    OctetsAreText(s);
  }

  lemma Accepts8to32(s: seq<Byte>, strict: bool)
    ensures Sane(Read8to32(strict))
    ensures Whole(Read8to32(strict), s, 0).result == ConversionOK <==> Utf8Octets(s)
  {
    hide *;
    Sane8to32(strict);
    Translates8to32(strict);
    TranslatesText(Read8to32(strict), Utf8, Utf32, s);
    OctetsAreText(s);
  }

  /** Strict ConvertUTF16toUTF8 succeeds exactly where all surrogates stand in pairs. */
  lemma Accepts16to8(s: seq<Word>)
    ensures Sane(Read16to8(true))
    ensures Whole(Read16to8(true), s, 0).result == ConversionOK <==> Utf16Words(s)
  {
    hide *;
    Sane16to8(true);
    Translates16to8();
    TranslatesText(Read16to8(true), Utf16, Utf8, s);
    WordsAreText(s);
  }

  /** Strict ConvertUTF16toUTF8 takes the result of ConvertUTF8toUTF16 back to the
      original bytes, and the other way round. */
  lemma RoundTrip8(s: seq<Byte>, strict: bool)
    requires Utf8Octets(s)
    ensures Sane(Read8to16(strict)) && Sane(Read16to8(true))
    ensures var r := Whole(Read8to16(strict), s, 0);
      r.at == |s| && Whole(Read16to8(true), r.out, 0) == Outcome(|r.out|, s, ConversionOK)
  {
    hide *;
    Accepts8to16(s, strict);
    Sane16to8(true);
    Translates8to16(strict);
    Translates16to8();
    ThereAndBack(Read8to16(strict), Read16to8(true), Utf8, Utf16, s);
  }

  lemma RoundTrip16(s: seq<Word>, strict: bool)
    requires Utf16Words(s)
    ensures Sane(Read8to16(strict)) && Sane(Read16to8(true))
    ensures var r := Whole(Read16to8(true), s, 0);
      r.at == |s| && Whole(Read8to16(strict), r.out, 0) == Outcome(|r.out|, s, ConversionOK)
  {
    hide *;
    Accepts16to8(s);
    Sane8to16(strict);
    Translates8to16(strict);
    Translates16to8();
    ThereAndBack(Read16to8(true), Read8to16(strict), Utf16, Utf8, s);
  }

  lemma RoundTrip32(s: seq<Byte>, strict: bool)
    requires Utf8Octets(s)
    ensures Sane(Read8to32(strict)) && Sane(Read32to8(true))
    ensures var r := Whole(Read8to32(strict), s, 0);
      r.at == |s| && Whole(Read32to8(true), r.out, 0) == Outcome(|r.out|, s, ConversionOK)
  {
    hide *;
    Accepts8to32(s, strict);
    Sane32to8(true);
    Translates8to32(strict);
    Translates32to8();
    ThereAndBack(Read8to32(strict), Read32to8(true), Utf8, Utf32, s);
  }

  // ------------------------------------------------------------- resumed calls

  /** No odd characters, and no look at the unit behind a character. */
  ghost predicate Tidy<S(!new), T(!new)>(read: Reader<S, T>) {
    && (forall s, i: nat :: i < |s| && read(s, i).Char? ==> !read(s, i).odd)
    && (forall s, i: nat, n: nat :: i < n <= |s| && read(s, i).Char? && i + read(s, i).len == n ==> !read(s[..n], i).Partial?)
  }

  lemma {:induction false} TidyRuns<S(!new), T(!new)>(read: Reader<S, T>, s: seq<S>, i: nat, space: nat, n: nat)
    requires Sane(read) && Tidy(read) && i <= |s|
    ensures !OddUpTo(read, s, i, n)
    ensures Run(read, s, i, space).at <= |s| && !OpenEnd(read, s, i, Run(read, s, i, space).at)
    decreases |s| - i
  {
    RunBounds(read, s, i, space);
    if i < |s| && read(s, i).Char? {
      var c := read(s, i);
      TidyRuns(read, s, i + c.len, if |c.units| <= space then space - |c.units| else 0, n);
      RunBounds(read, s, i + c.len, if |c.units| <= space then space - |c.units| else 0);
    }
  }

  lemma TidyReaders(strict: bool)
    ensures Tidy(Read8to16(strict)) && Tidy(Read8to32(strict)) && Tidy(Read16to8(true))
  {
    Tidy8to16(strict);
    Tidy8to32(strict);
    Tidy16to8();
  }

  lemma Tidy8to16(strict: bool)
    ensures Tidy(Read8to16(strict))
  {
    var read := Read8to16(strict);
    forall s: seq<Byte>, i: nat | i < |s| && read(s, i).Char?
      ensures !read(s, i).odd && forall n: nat :: i + read(s, i).len == n <= |s| ==> !read(s[..n], i).Partial?
    {
      PackedScalar(s, i);
      Sane8to16(strict);
      forall n: nat | i + read(s, i).len == n <= |s|
        ensures !read(s[..n], i).Partial?
      {
        Read8Prefix(s, n, i, (ch: nat, len: nat) => ToUtf16(ch, strict, len));
      }
    }
  }

  lemma Tidy8to32(strict: bool)
    ensures Tidy(Read8to32(strict))
  {
    var read := Read8to32(strict);
    forall s: seq<Byte>, i: nat | i < |s| && read(s, i).Char?
      ensures !read(s, i).odd && forall n: nat :: i + read(s, i).len == n <= |s| ==> !read(s[..n], i).Partial?
    {
      PackedScalar(s, i);
      Sane8to32(strict);
      forall n: nat | i + read(s, i).len == n <= |s|
        ensures !read(s[..n], i).Partial?
      {
        Read8Prefix(s, n, i, (ch: nat, len: nat) => ToUtf32(ch, strict, len));
      }
    }
  }

  lemma Tidy16to8()
    ensures Tidy(Read16to8(true))
  {}

  /** With a tidy reader, converting in chunks is converting at once, and the output of
      any call is the conversion of what it has consumed. */
  lemma TidyChunks<S(!new), T(!new)>(read: Reader<S, T>, s: seq<S>, spaces: seq<nat>, space: nat)
    requires Sane(read) && Tidy(read)
    ensures Chunks(read, s, 0, spaces).result != TargetExhausted ==> Chunks(read, s, 0, spaces) == Whole(read, s, 0)
    ensures var r := Run(read, s, 0, space); r.at <= |s| && Whole(read, s[..r.at], 0) == Outcome(r.at, r.out, ConversionOK)
  {
    hide Sane, Tidy, Run, Whole, Chunks, OddUpTo, OpenEnd;
    var r := Run(read, s, 0, space);
    ChunksAgree(read, s, 0, spaces);
    TidyRuns(read, s, 0, space, Chunks(read, s, 0, spaces).at);
    ConsumedPrefix(read, s, 0, space);
    TidyRuns(read, s, 0, space, r.at);
    assert r.out + [] == r.out;
  }

  /** ConvertUTF16toUTF8 when lenient: what has been consumed converts to what has been
      written unless it ends in an unpaired high surrogate. */
  lemma LenientConsumed(s: seq<Word>, space: nat)
    ensures Sane(Read16to8(false))
    ensures var r := Run(Read16to8(false), s, 0, space);
      r.at <= |s| &&
      (Whole(Read16to8(false), s[..r.at], 0) == Outcome(r.at, r.out, ConversionOK) <==> r.at == 0 || !High(s[r.at - 1]))
  {
    var read := Read16to8(false);
    Sane16to8(false);
    hide Sane, Run, Whole, OddUpTo, OpenEnd;
    var r := Run(read, s, 0, space);
    ConsumedPrefix(read, s, 0, space);
    LenientOpen(s, 0, space);
    assert r.out + [] == r.out;
  }

  lemma {:induction false} LenientOpen(s: seq<Word>, i: nat, space: nat)
    requires Sane(Read16to8(false)) && i <= |s|
    ensures var r := Run(Read16to8(false), s, i, space);
      && i <= r.at <= |s|
      && (OpenEnd(Read16to8(false), s, i, r.at) <==> r.at > i && High(s[r.at - 1]))
      && !OddUpTo(Read16to8(false), s, i, r.at)
    decreases |s| - i
  {
    hide Sane, Utf8Of;
    var read := Read16to8(false);
    RunBounds(read, s, i, space);
    if i < |s| && read(s, i).Char? && |read(s, i).units| <= space {
      var c := read(s, i);
      SaneAt(read, s, i);
      LenientOpen(s, i + c.len, space - |c.units|);
    }
  }

  /** ConvertUTF32toUTF8 reports a code point above 0x10FFFF in the call that meets it
      only: cut into chunks the conversion may succeed where one call does not. */
  lemma OversizeForgotten()
    ensures Sane(Read32to8(true))
    ensures var s: seq<Long> := [0x110000, 0x41];
      && Chunks(Read32to8(true), s, 0, [3, 1]).result == ConversionOK
      && Whole(Read32to8(true), s, 0).result == SourceIllegal
  {
    var read := Read32to8(true);
    var s: seq<Long> := [0x110000, 0x41];
    Sane32to8(true);
    hide Sane;
    assert Run(read, s, 2, 0) == Outcome(2, [], ConversionOK);
    assert Run(read, s, 1, 1) == Outcome(2, [0x41], ConversionOK);
    assert Run(read, s, 1, 0) == Outcome(1, [], TargetExhausted);
    assert Run(read, s, 0, 3) == Outcome(1, [0xEF, 0xBF, 0xBD], TargetExhausted);
    assert Run(read, s, 0, 4).result == SourceIllegal;
    assert Room(read, s, 2) == 0 && Room(read, s, 1) == 1 && Room(read, s, 0) == 4;
    assert [3, 1][1..] == [1];
  }

  /** A number that ConvertUTF32toUTF8 stops at. */
  predicate Refused(strict: bool, c: Long) { strict && HIGH_START <= c <= LOW_END }

  /** A number above 0x10FFFF stands between `i` and `j`. */
  predicate Oversize(s: seq<Long>, i: nat, j: nat)
    requires j <= |s|
  {
    exists k :: i <= k < j && s[k] > MAX_LEGAL
  }

  /** What spoils the result of ConvertUTF32toUTF8 is exactly the numbers above 0x10FFFF. */
  lemma {:induction false} OddNumbers(s: seq<Long>, strict: bool, i: nat, j: nat)
    requires Sane(Read32to8(strict)) && i <= j <= |s| && forall k :: i <= k < j ==> !Refused(strict, s[k])
    ensures OddUpTo(Read32to8(strict), s, i, j) <==> Oversize(s, i, j)
    decreases j - i
  {
    hide Sane, Utf8Of;
    if i < j {
      OddNumbers(s, strict, i + 1, j);
      assert Oversize(s, i, j) <==> s[i] > MAX_LEGAL || Oversize(s, i + 1, j);
    }
  }

  /** A call of ConvertUTF32toUTF8 passes over no number that it refuses. Unless it runs
      out of room it succeeds exactly if it reaches the end and meets no number above
      0x10FFFF on its way. */
  lemma {:induction false} OversizeReported(s: seq<Long>, strict: bool, i: nat, space: nat)
    requires i <= |s|
    ensures Sane(Read32to8(strict))
    ensures var r := Run(Read32to8(strict), s, i, space);
      && i <= r.at <= |s| && (forall k :: i <= k < r.at ==> !Refused(strict, s[k]))
      && (r.result != TargetExhausted ==> r.at == |s| || Refused(strict, s[r.at]))
      && (r.result != TargetExhausted ==> (r.result == ConversionOK <==> r.at == |s| && !Oversize(s, i, |s|)))
    decreases |s| - i
  {
    Sane32to8(strict);
    hide Sane, Utf8Of;
    var read := Read32to8(strict);
    RunBounds(read, s, i, space);
    if i < |s| && read(s, i).Char? && |read(s, i).units| <= space {
      OversizeReported(s, strict, i + 1, space - |read(s, i).units|);
      assert Oversize(s, i, |s|) <==> s[i] > MAX_LEGAL || Oversize(s, i + 1, |s|);
    }
  }

  /** Converting in these chunks, if they suffice, is converting at once. */
  ghost predicate Agree<S(!new), T(!new)>(read: Reader<S, T>, s: seq<S>, spaces: seq<nat>)
    requires Sane(read)
  {
    Chunks(read, s, 0, spaces).result != TargetExhausted ==> Chunks(read, s, 0, spaces) == Whole(read, s, 0)
  }

  /** The last call meets the last number. */
  lemma {:induction false} LastCall(s: seq<Long>, strict: bool, i: nat, spaces: seq<nat>)
    requires Sane(Read32to8(strict)) && i < |s|
    ensures var r := Chunks(Read32to8(strict), s, i, spaces);
      r.result == ConversionOK ==> r.at == |s| && s[|s| - 1] <= MAX_LEGAL
    decreases |spaces|
  {
    hide Sane, Run, Whole, OddUpTo;
    if spaces != [] {
      var read := Read32to8(strict);
      OversizeReported(s, strict, i, spaces[0]);
      if Run(read, s, i, spaces[0]).result == TargetExhausted {
        ResumeTarget(read, s, i, spaces[0]);
        LastCall(s, strict, Run(read, s, i, spaces[0]).at, spaces[1..]);
      }
    }
  }

  /** The result of ConvertUTF32toUTF8 survives every division of the target into chunks
      exactly if the source has a number at which it stops, or none above 0x10FFFF, or one
      at its end. */
  lemma OversizeKept(s: seq<Long>, strict: bool)
    ensures Sane(Read32to8(strict))
    ensures (forall spaces: seq<nat> :: Agree(Read32to8(strict), s, spaces)) <==>
      (exists k :: 0 <= k < |s| && Refused(strict, s[k])) || !Oversize(s, 0, |s|) || s[|s| - 1] > MAX_LEGAL
  {
    Sane32to8(strict);
    hide Sane, Run, Whole, Chunks, OddUpTo, Reaches, Room;
    var read := Read32to8(strict);
    if (exists k :: 0 <= k < |s| && Refused(strict, s[k])) || !Oversize(s, 0, |s|) || s[|s| - 1] > MAX_LEGAL {
      forall spaces: seq<nat> ensures Agree(read, s, spaces) { KeptAgrees(s, strict, spaces); }
    } else {
      ForgottenDiffers(s, strict);
    }
  }

  lemma KeptAgrees(s: seq<Long>, strict: bool, spaces: seq<nat>)
    requires Sane(Read32to8(strict))
    requires (exists k :: 0 <= k < |s| && Refused(strict, s[k])) || !Oversize(s, 0, |s|) || s[|s| - 1] > MAX_LEGAL
    ensures Agree(Read32to8(strict), s, spaces)
  {
    hide Sane, Run, Chunks, OddUpTo, Room;
    var read := Read32to8(strict);
    ChunksAgree(read, s, 0, spaces);
    OversizeReported(s, strict, 0, Room(read, s, 0));
    var r := Chunks(read, s, 0, spaces);
    if s != [] && r.result == ConversionOK {
      LastCall(s, strict, 0, spaces);
      OddNumbers(s, strict, 0, |s|);
    }
    if s == [] { OddNumbers(s, strict, 0, 0); }
  }

  /** All but the last number in one call, and the last one in another. */
  lemma ForgottenDiffers(s: seq<Long>, strict: bool)
    requires Sane(Read32to8(strict))
    requires (forall k :: 0 <= k < |s| ==> !Refused(strict, s[k])) && Oversize(s, 0, |s|) && s[|s| - 1] <= MAX_LEGAL
    ensures exists spaces: seq<nat> :: !Agree(Read32to8(strict), s, spaces)
  {
    hide Sane, Run, OddUpTo, Room, Utf8Of;
    var read := Read32to8(strict);
    var j := |s| - 1;
    ReachesNumber(s, strict, 0, j);
    NumberBytes(s, strict, j);
    RunTo(read, s, 0, j);
    var spaces: seq<nat> := [Room(read, s, 0) - Room(read, s, j), Room(read, s, j)];
    assert spaces[1..] == [Room(read, s, j)];
    assert read(s, j).Char? && !Refused(strict, s[j]);
    OversizeReported(s, strict, j, Room(read, s, j));
    RoomEnough(read, s, j, Room(read, s, j));
    OversizeReported(s, strict, 0, Room(read, s, 0));
    RoomEnough(read, s, 0, Room(read, s, 0));
    assert Run(read, s, j, Room(read, s, j)).result == ConversionOK;
    assert Chunks(read, s, j, spaces[1..]).result == ConversionOK;
    assert !Agree(read, s, spaces);
  }

  lemma NumberBytes(s: seq<Long>, strict: bool, j: nat)
    requires j < |s| && !Refused(strict, s[j])
    ensures var c := Read32to8(strict)(s, j); c.Char? && c.units != []
  {}

  lemma {:induction false} ReachesNumber(s: seq<Long>, strict: bool, i: nat, j: nat)
    requires Sane(Read32to8(strict)) && i <= j < |s| && forall k :: 0 <= k < |s| ==> !Refused(strict, s[k])
    ensures Reaches(Read32to8(strict), s, i, j)
    decreases j - i
  {
    hide Sane, Utf8Of;
    if i < j { ReachesNumber(s, strict, i + 1, j); }
  }

  // ------------------------------------------------------ unpaired high surrogates

  /** What a call of the lenient ConvertUTF16toUTF8 has consumed converts to what it has
      written. */
  ghost predicate Consumes(s: seq<Word>, space: nat)
    requires Sane(Read16to8(false))
  {
    var r := Run(Read16to8(false), s, 0, space);
    r.at <= |s| && Whole(Read16to8(false), s[..r.at], 0) == Outcome(r.at, r.out, ConversionOK)
  }

  /** Before the last word every high surrogate is followed by a low one. */
  predicate Paired(s: seq<Word>) { forall k :: 0 <= k < |s| - 1 && High(s[k]) ==> Low(s[k + 1]) }

  /** It does so for every amount of room exactly if high surrogates are paired. */
  lemma LenientPaired(s: seq<Word>)
    ensures Sane(Read16to8(false))
    ensures (forall space: nat :: Consumes(s, space)) <==> Paired(s)
  {
    Sane16to8(false);
    hide Sane, Run, Whole, Reaches, Room;
    var read := Read16to8(false);
    forall space: nat ensures Paired(s) ==> Consumes(s, space) {
      LenientConsumed(s, space);
      StopsUnpaired(s, 0, space);
    }
    if !Paired(s) {
      var k :| 0 <= k < |s| - 1 && High(s[k]) && !Low(s[k + 1]);
      ReachesBehind(s, 0, k);
      WordBytes(s, k + 1);
      RunTo(read, s, 0, k + 1);
      var space := Room(read, s, 0) - Room(read, s, k + 1);
      LenientConsumed(s, space);
      assert !Consumes(s, space);
    }
  }

  lemma WordBytes(s: seq<Word>, i: nat)
    requires i < |s|
    ensures var c := Read16to8(false)(s, i); c.Char? ==> c.units != []
  {}

  /** A call that stops behind a high surrogate stops before a word that is not low. */
  lemma {:induction false} StopsUnpaired(s: seq<Word>, i: nat, space: nat)
    requires Sane(Read16to8(false)) && i <= |s|
    ensures var r := Run(Read16to8(false), s, i, space);
      i <= r.at <= |s| && (r.at > i && High(s[r.at - 1]) ==> r.at < |s| && !Low(s[r.at]))
    decreases |s| - i
  {
    hide Sane, Utf8Of;
    var read := Read16to8(false);
    RunBounds(read, s, i, space);
    if i < |s| && read(s, i).Char? && |read(s, i).units| <= space {
      SaneAt(read, s, i);
      StopsUnpaired(s, i + read(s, i).len, space - |read(s, i).units|);
    }
  }

  lemma {:induction false} ReachesBehind(s: seq<Word>, i: nat, k: nat)
    requires Sane(Read16to8(false)) && i <= k < |s| - 1 && High(s[k]) && !Low(s[k + 1])
    ensures Reaches(Read16to8(false), s, i, k + 1)
    decreases k - i
  {
    hide Sane, Utf8Of;
    if i < k { ReachesBehind(s, i + Read16to8(false)(s, i).len, k); }
  }

  /** An unpaired high surrogate is consumed while more of the source is in sight, but by
      itself it is only the beginning of a character. */
  lemma LenientCut()
    ensures Sane(Read16to8(false))
    ensures var s: seq<Word> := [HIGH_START, 0x41]; var r := Run(Read16to8(false), s, 0, 3);
      r == Outcome(1, [0xED, 0xA0, 0x80], TargetExhausted) && Whole(Read16to8(false), s[..1], 0).result == SourceExhausted
  {
    var read := Read16to8(false);
    var s: seq<Word> := [HIGH_START, 0x41];
    Sane16to8(false);
    hide Sane;
    assert Run(read, s, 1, 0) == Outcome(1, [], TargetExhausted);
    assert Run(read, s, 0, 3) == Outcome(1, [0xED, 0xA0, 0x80] + [], TargetExhausted);
  }
}
