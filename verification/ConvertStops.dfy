/** Where a conversion with enough room stops, what it reports there, and what the lenient
    converters make of units that encode no character. */
module ConvertStops {
  import opened Transcode
  import opened Unicode
  import opened UnicodeText
  import opened ConvertUTF

  /** A call stops at the end, or where the reader finds no character. */
  lemma {:induction false} WholeEnds<S(!new), T(!new)>(read: Reader<S, T>, s: seq<S>, i: nat)
    requires Sane(read) && Tidy(read) && i <= |s|
    ensures var r := Whole(read, s, i);
      && i <= r.at <= |s|
      && (r.at == |s| ==> r.result == ConversionOK)
      && (r.at < |s| ==> !read(s, r.at).Char? && r.result == if read(s, r.at).Partial? then SourceExhausted else SourceIllegal)
    decreases |s| - i
  {
    hide Whole;
    if i < |s| && read(s, i).Char? {
      WholeStep(read, s, i);
      WholeEnds(read, s, i + read(s, i).len);
    } else {
      WholeStop(read, s, i);
    }
  }

  /** What was passed converts, by itself, to what was written. */
  lemma WholePassed<S(!new), T(!new)>(read: Reader<S, T>, s: seq<S>)
    requires Sane(read) && Tidy(read)
    ensures var r := Whole(read, s, 0); r.at <= |s| && Whole(read, s[..r.at], 0) == Outcome(r.at, r.out, ConversionOK)
  {
    hide Sane, Tidy, Run;
    TidyChunks(read, s, [], Room(read, s, 0));
  }

  // ------------------------------------------------------------------ from UTF-8

  /** How many bytes the first byte asks for, itself included. */
  predicate AsksFor(b: Byte, n: nat) {
    match n
    case 1 => b < 0xC0
    case 2 => 0xC0 <= b < 0xE0
    case 3 => 0xE0 <= b < 0xF0
    case 4 => 0xF0 <= b < 0xF8
    case 5 => 0xF8 <= b < 0xFC
    case 6 => 0xFC <= b
    case _ => false
  }

  /** The next `n` bytes are a character of RFC 3629. */
  predicate CharAt(s: seq<Byte>, at: nat, n: nat) { at + n <= |s| && Utf8Char(s[at..at + n]) }

  /** A call on octets that stopped at `at`: what is before are whole characters; it passed
      everything, or there is none at `at`, and the result tells whether the first byte there
      asks for more bytes than are left. */
  ghost predicate Stopped8(s: seq<Byte>, at: nat, result: Result) {
    && at <= |s| && Utf8Octets(s[..at])
    && if at == |s| then result == ConversionOK else
         && (forall n: nat :: !CharAt(s, at, n))
         && (result == SourceExhausted || result == SourceIllegal)
         && exists n: nat :: AsksFor(s[at], n) && (result == SourceExhausted <==> at + n > |s|)
  }

  lemma Asks(b: Byte)
    ensures AsksFor(b, Trailing(b) + 1)
  {}

  lemma PartialIs<T>(s: seq<Byte>, i: nat, target: (nat, nat) -> Item<T>)
    requires i < |s| && (forall ch, len :: !target(ch, len).Partial?)
    ensures Read8(s, i, target).Partial? <==> i + Trailing(s[i]) >= |s|
  {
    if i + Trailing(s[i]) < |s| && IsLegal(s, i, Trailing(s[i]) + 1) {
      PackedScalar(s, i);
      assert !target(Packed(s, i, Trailing(s[i])) - OFFSETS[Trailing(s[i])], Trailing(s[i]) + 1).Partial?;
    }
  }

  lemma CharRead<T(!new)>(read: Reader<Byte, T>, to: Encoding<T>, s: seq<Byte>, at: nat, n: nat)
    requires Translates(read, Utf8, to) && CharAt(s, at, n)
    ensures read(s, at).Char?
  {
    hide Utf8Of, CodePoint, Utf8Char;
    CharCodes(s[at..at + n]);
    var cp: ScalarValue := CodePoint(s[at..at + n]);
    assert StartsAt(s, at, Utf8(cp));
  }

  lemma NoCharacter<T(!new)>(read: Reader<Byte, T>, to: Encoding<T>, s: seq<Byte>, at: nat)
    requires Translates(read, Utf8, to) && !read(s, at).Char?
    ensures forall n: nat :: !CharAt(s, at, n)
  {
    hide Translates;
    forall n: nat ensures !CharAt(s, at, n) {
      if CharAt(s, at, n) { CharRead(read, to, s, at, n); }
    }
  }

  lemma Stops8to16(s: seq<Byte>, strict: bool)
    ensures Sane(Read8to16(strict))
    ensures var r := Whole(Read8to16(strict), s, 0); Stopped8(s, r.at, r.result)
  {
    var read := Read8to16(strict);
    Sane8to16(strict);
    Tidy8to16(strict);
    Translates8to16(strict);
    hide Sane, Tidy, Whole, Translates, Utf8Char, Utf8Octets;
    var r := Whole(read, s, 0);
    WholeEnds(read, s, 0);
    WholePassed(read, s);
    Accepts8to16(s[..r.at], strict);
    if r.at < |s| {
      NoCharacter(read, Utf16, s, r.at);
      PartialIs(s, r.at, (ch: nat, len: nat) => ToUtf16(ch, strict, len));
      Asks(s[r.at]);
    }
  }

  lemma Stops8to32(s: seq<Byte>, strict: bool)
    ensures Sane(Read8to32(strict))
    ensures var r := Whole(Read8to32(strict), s, 0); Stopped8(s, r.at, r.result)
  {
    var read := Read8to32(strict);
    Sane8to32(strict);
    Tidy8to32(strict);
    Translates8to32(strict);
    hide Sane, Tidy, Whole, Translates, Utf8Char, Utf8Octets;
    var r := Whole(read, s, 0);
    WholeEnds(read, s, 0);
    WholePassed(read, s);
    Accepts8to32(s[..r.at], strict);
    if r.at < |s| {
      NoCharacter(read, Utf32, s, r.at);
      PartialIs(s, r.at, (ch: nat, len: nat) => ToUtf32(ch, strict, len));
      Asks(s[r.at]);
    }
  }

  // ----------------------------------------------------------------- from UTF-16

  /** Strict ConvertUTF16toUTF8 stops at the first surrogate that is not paired: for more
      input if it is a high one at the end, and as illegal otherwise. */
  lemma Stops16to8(s: seq<Word>)
    ensures Sane(Read16to8(true))
    ensures var r := Whole(Read16to8(true), s, 0);
      && r.at <= |s| && Utf16Words(s[..r.at])
      && if r.at == |s| then r.result == ConversionOK
         else if High(s[r.at]) then
           (r.at + 1 < |s| ==> !Low(s[r.at + 1])) && r.result == if r.at + 1 == |s| then SourceExhausted else SourceIllegal
         else Low(s[r.at]) && r.result == SourceIllegal
  {
    var read := Read16to8(true);
    Sane16to8(true);
    Tidy16to8();
    hide Sane, Tidy, Whole, Utf8Of, Utf16Words;
    var r := Whole(read, s, 0);
    WholeEnds(read, s, 0);
    WholePassed(read, s);
    Accepts16to8(s[..r.at]);
  }

  /** The three bytes of a unit between the last two-byte character and the first pair. */
  function Three(w: Word): seq<Byte>
    requires 0x800 <= w < 0x10000
  {
    [0xE0 + w / 4096, 0x80 + w / 64 % 64, 0x80 + w % 64]
  }

  /** Lenient ConvertUTF16toUTF8 writes an unpaired surrogate as if it were a character, and
      stops only for a high one at the end. */
  lemma Lenient16(s: seq<Word>, i: nat)
    requires i < |s|
    ensures var c := Read16to8(false)(s, i);
      && (c.Partial? <==> High(s[i]) && i + 1 == |s|) && !c.Illegal?
      && (Low(s[i]) || (High(s[i]) && i + 1 < |s| && !Low(s[i + 1])) ==> c == Char(1, Three(s[i]), false))
      && (High(s[i]) && i + 1 < |s| && Low(s[i + 1]) ==> c == Char(2, Utf8Of(Pair(s[i], s[i + 1])), false))
      && (!High(s[i]) && !Low(s[i]) ==> c == Char(1, Utf8Of(s[i]), false))
  {}

  // ----------------------------------------------------------------- from UTF-32

  /** ConvertUTF32toUTF8 writes the replacement character for a number above the last code
      point and spoils the result; a surrogate is illegal when strict and written as it is
      when lenient. */
  lemma Reads32(s: seq<Long>, i: nat, strict: bool)
    requires i < |s|
    ensures var c, w := Read32to8(strict)(s, i), s[i];
      && !c.Partial?
      && (c.Illegal? <==> strict && (High(w) || Low(w)))
      && (!strict && (High(w) || Low(w)) ==> c == Char(1, Three(w), false))
      && (w > 0x10FFFF ==> c == Char(1, [0xEF, 0xBF, 0xBD], true))
      && (w <= 0x10FFFF && !High(w) && !Low(w) ==> c == Char(1, Utf8Of(w), false))
  {}
}
