/** ConvertUTF.cpp: the conversion loops, which read a source buffer and write a target
    buffer in place. */
module ConvertLoops {
  import opened Transcode
  import opened Unicode
  import opened ConvertUTF

  /** The target holds `out` from `start` on, and is otherwise as it was. */
  ghost predicate Written<T>(before: seq<T>, after: seq<T>, start: nat, at: nat, out: seq<T>) {
    start + |out| == at <= |before| && after == before[..start] + out + before[at..]
  }

  /** A call has done what is left to do from `i` on, and written `out` before. */
  ghost predicate Going<S(!new), T(!new)>(read: Reader<S, T>, s: seq<S>, start: nat, space: nat, i: nat, out: seq<T>, odd: bool) {
    && Sane(read) && start <= i <= |s| && |out| <= space
    && Run(read, s, start, space) == Prepend(out, odd, Run(read, s, i, space - |out|))
  }

  lemma Begin<S(!new), T(!new)>(read: Reader<S, T>, s: seq<S>, start: nat, space: nat, before: seq<T>, at: nat)
    requires Sane(read) && start <= |s| && at <= |before|
    ensures Going(read, s, start, space, start, [], false)
    ensures Written(before, before, at, at, [])
  {
    hide Sane;
    PrependTwice([], false, [], false, Run(read, s, start, space));
  }

  lemma GoOn<S(!new), T(!new)>(read: Reader<S, T>, s: seq<S>, start: nat, space: nat, i: nat, out: seq<T>, odd: bool)
    requires Going(read, s, start, space, i, out, odd) && i < |s|
    requires read(s, i).Char? && |out| + |read(s, i).units| <= space
    ensures var c := read(s, i); Going(read, s, start, space, i + c.len, out + c.units, odd || c.odd)
  {
    SaneAt(read, s, i);
    hide Sane;
    var c := read(s, i);
    PrependTwice(out, odd, c.units, c.odd, Run(read, s, i + c.len, space - |out| - |c.units|));
  }

  lemma Stop<S(!new), T(!new)>(read: Reader<S, T>, s: seq<S>, start: nat, space: nat, i: nat, out: seq<T>, odd: bool)
    requires Going(read, s, start, space, i, out, odd)
    requires i < |s| ==> read(s, i).Char? ==> |out| + |read(s, i).units| > space
    ensures Run(read, s, start, space) == Outcome(i, out,
      if i == |s| then Spoiled(ConversionOK, odd)
      else match read(s, i) case Partial => SourceExhausted case Illegal => SourceIllegal case Char(_, _, _) => TargetExhausted)
  {
    hide Sane;
    assert out + [] == out;
  }

  /** A character has been written at `t`. */
  ghost predicate Placed<T>(middle: seq<T>, after: seq<T>, t: nat, units: seq<T>) {
    t + |units| <= |middle| && after == middle[..t] + units + middle[t + |units|..]
  }

  lemma WrittenMore<T>(before: seq<T>, middle: seq<T>, after: seq<T>, start: nat, at: nat, out: seq<T>, units: seq<T>)
    requires Written(before, middle, start, at, out) && Placed(middle, after, at, units)
    ensures Written(before, after, start, at + |units|, out + units)
  {
    assert middle[..at] == before[..start] + out;
    assert middle[at + |units|..] == before[at + |units|..];
    assert before[..start] + out + units == before[..start] + (out + units);
  }

  /** The outcome of a call is that of the specification. */
  ghost predicate Converted<S(!new), T(!new)>(read: Reader<S, T>, source: seq<S>, sourceStart: nat, sourceAt: nat,
      before: seq<T>, after: seq<T>, targetStart: nat, targetEnd: nat, targetAt: nat, result: Result)
    requires Sane(read) && sourceStart <= |source| && targetStart <= targetEnd
  {
    var r := Run(read, source, sourceStart, targetEnd - targetStart);
    r.at == sourceAt && r.result == result && Written(before, after, targetStart, targetAt, r.out)
  }

  /** The fall-through switch that puts a character together. */
  method Gather(source: seq<Byte>, at: nat, extra: nat) returns (ch: nat)
    requires at < |source| && extra == Trailing(source[at]) && at + extra < |source| && IsLegal(source, at, extra + 1)
    ensures ch == CodePoint(source[at..at + extra + 1])
  {
    var i := at;
    var left := extra + 1;
    ch := 0;
    while left > 0
      invariant 0 <= left <= extra + 1 && i == at + extra + 1 - left
      invariant ch == if left == extra + 1 then 0 else Packed(source, at, extra - left) * (if left > 0 then 64 else 1)
    {
      ch := ch + source[i];
      i := i + 1;
      left := left - 1;
      if left > 0 { ch := ch * 64; }
    }
    PackedCode(source, at);
    ch := ch - OFFSETS[extra];
  }

  /** Writes a code point as UTF-16. */
  method Put16(ch: nat, strict: bool, target: array<Word>, start: nat, end: nat, ghost len: nat) returns (t: nat, result: Result)
    requires start < end <= target.Length
    modifies target
    ensures match ToUtf16(ch, strict, len)
      case Char(_, units, _) =>
        if start + |units| <= end then result == ConversionOK && t == start + |units| && Placed(old(target[..]), target[..], start, units)
        else result == TargetExhausted && t == start && target[..] == old(target[..])
      case _ => result == SourceIllegal && t == start && target[..] == old(target[..])
  {
    t := start;
    if ch <= MAX_BMP {
      if HIGH_START <= ch <= LOW_END {
        if strict { return t, SourceIllegal; }
        target[t] := REPLACEMENT;
      } else {
        target[t] := ch;
      }
      t := t + 1;
    } else if ch > MAX_LEGAL {
      if strict { return t, SourceIllegal; }
      target[t] := REPLACEMENT;
      t := t + 1;
    } else {
      if t + 1 >= end { return t, TargetExhausted; }
      target[t] := (ch - HALF_BASE) / 1024 + HIGH_START;
      target[t + 1] := (ch - HALF_BASE) % 1024 + LOW_START;
      t := t + 2;
    }
    return t, ConversionOK;
  }

  method ConvertUTF8toUTF16(source: seq<Byte>, sourceStart: nat, target: array<Word>, targetStart: nat, targetEnd: nat, strict: bool)
    returns (at: nat, t: nat, result: Result)
    requires sourceStart <= |source| && targetStart <= targetEnd <= target.Length
    modifies target
    ensures Sane(Read8to16(strict))
    ensures Converted(Read8to16(strict), source, sourceStart, at, old(target[..]), target[..], targetStart, targetEnd, t, result)
  {
    hide Sane, Run, IsLegal, CodePoint, Packed, Utf8Char, Going, Written, Placed, Scalar, Trailing, Utf16Of, Utf8Of;
    ghost var read := Read8to16(strict);
    ghost var space := targetEnd - targetStart;
    ghost var out: seq<Word> := [];
    Sane8to16(strict);
    Begin(read, source, sourceStart, space, target[..], targetStart);
    result := ConversionOK;
    at := sourceStart;
    t := targetStart;
    while at < |source|
      invariant at <= |source| && t == targetStart + |out| <= targetEnd
      invariant Going(read, source, sourceStart, space, at, out, false)
      invariant Written(old(target[..]), target[..], targetStart, t, out)
      invariant result == ConversionOK
    {
      var extra := Trailing(source[at]);
      if at + extra >= |source| {
        result := SourceExhausted;
        break;
      }
      var legal := IsLegalUTF8(source, at, extra + 1);
      if !legal {
        result := SourceIllegal;
        break;
      }
      var ch := Gather(source, at, extra);
      PackedScalar(source, at);
      Read8Is(source, at, strict);
      if t >= targetEnd {
        result := TargetExhausted;
        break;
      }
      ghost var middle := target[..];
      t, result := Put16(ch, strict, target, t, targetEnd, extra + 1);
      if result != ConversionOK { break; }
      ghost var units := read(source, at).units;
      WrittenMore(old(target[..]), middle, target[..], targetStart, t - |units|, out, units);
      GoOn(read, source, sourceStart, space, at, out, false);
      out := out + units;
      at := at + extra + 1;
    }
    Stop(read, source, sourceStart, space, at, out, false);
  }

  lemma Read8Is(s: seq<Byte>, i: nat, strict: bool)
    requires i < |s| && i + Trailing(s[i]) < |s| && IsLegal(s, i, Trailing(s[i]) + 1)
    ensures var u := s[i..i + Trailing(s[i]) + 1];
      && Utf8Char(u) && CodePoint(u) >= 0
      && Read8to16(strict)(s, i) == ToUtf16(CodePoint(u), strict, Trailing(s[i]) + 1)
      && Read8to16(strict)(s, i).Char? && Read8to16(strict)(s, i).units != []
      && Read8to32(strict)(s, i) == ToUtf32(CodePoint(u), strict, Trailing(s[i]) + 1)
      && Read8to32(strict)(s, i).Char? && Read8to32(strict)(s, i).units != []
  {
    PackedScalar(s, i);
  }

  /** Writes a code point as UTF-32; one above 0x10FFFF is replaced and remembered. */
  method Put32(ch: nat, strict: bool, target: array<Long>, t: nat, before: Result, ghost len: nat) returns (illegal: bool, result: Result)
    requires t < target.Length
    modifies target
    ensures match ToUtf32(ch, strict, len)
      case Char(_, units, odd) =>
        !illegal && |units| == 1 && result == (if odd then SourceIllegal else before) && Placed(old(target[..]), target[..], t, units)
      case _ => illegal && result == SourceIllegal && target[..] == old(target[..])
  {
    illegal, result := false, before;
    if ch <= MAX_LEGAL {
      if HIGH_START <= ch <= LOW_END {
        if strict { return true, SourceIllegal; }
        target[t] := REPLACEMENT;
      } else {
        target[t] := ch;
      }
    } else {
      result := SourceIllegal;
      target[t] := REPLACEMENT;
    }
  }

  method ConvertUTF8toUTF32(source: seq<Byte>, sourceStart: nat, target: array<Long>, targetStart: nat, targetEnd: nat, strict: bool)
    returns (at: nat, t: nat, result: Result)
    requires sourceStart <= |source| && targetStart <= targetEnd <= target.Length
    modifies target
    ensures Sane(Read8to32(strict))
    ensures Converted(Read8to32(strict), source, sourceStart, at, old(target[..]), target[..], targetStart, targetEnd, t, result)
  {
    hide Sane, Run, IsLegal, CodePoint, Packed, Utf8Char, Going, Written, Placed, Scalar, Trailing, Utf8Of;
    ghost var read := Read8to32(strict);
    ghost var space := targetEnd - targetStart;
    ghost var out: seq<Long> := [];
    ghost var odd := false;
    Sane8to32(strict);
    Begin(read, source, sourceStart, space, target[..], targetStart);
    result := ConversionOK;
    at := sourceStart;
    t := targetStart;
    while at < |source|
      invariant at <= |source| && t == targetStart + |out| <= targetEnd
      invariant Going(read, source, sourceStart, space, at, out, odd)
      invariant Written(old(target[..]), target[..], targetStart, t, out)
      invariant result == Spoiled(ConversionOK, odd)
    {
      var extra := Trailing(source[at]);
      if at + extra >= |source| {
        result := SourceExhausted;
        break;
      }
      var legal := IsLegalUTF8(source, at, extra + 1);
      if !legal {
        result := SourceIllegal;
        break;
      }
      var ch := Gather(source, at, extra);
      PackedScalar(source, at);
      Read8Is(source, at, strict);
      if t >= targetEnd {
        result := TargetExhausted;
        break;
      }
      ghost var middle := target[..];
      var illegal;
      illegal, result := Put32(ch, strict, target, t, result, extra + 1);
      if illegal {
        break;
      }
      ghost var units := read(source, at).units;
      WrittenMore(old(target[..]), middle, target[..], targetStart, t, out, units);
      GoOn(read, source, sourceStart, space, at, out, odd);
      out := out + units;
      odd := odd || read(source, at).odd;
      t := t + 1;
      at := at + extra + 1;
    }
    Stop(read, source, sourceStart, space, at, out, odd);
  }

  /** How many bytes a code point takes. */
  function BytesToWrite(ch: nat): nat {
    if ch < 0x80 then 1 else if ch < 0x800 then 2 else if ch < 0x10000 then 3 else 4
  }

  lemma LengthOf(ch: nat)
    requires ch <= MAX_LEGAL
    ensures 1 <= BytesToWrite(ch) <= 4 && |Utf8Of(ch)| == BytesToWrite(ch)
  {}

  /** `(ch | byteMark) & byteMask`: the low six bits, marked as a trailing byte. */
  function Marked(ch: nat): Byte { 0x80 + ch % 64 }

  /** `ch >> 6`, so many times. */
  function Shifted(ch: nat, times: nat): nat { if times == 0 then ch else Shifted(ch, times - 1) / 64 }

  /** `ch | firstByteMark[bytes]`, for what is left of a code point of so many bytes. */
  function First(ch: nat, bytes: nat): nat
    requires bytes <= 4
  {
    ch + [0x00, 0x00, 0xC0, 0xE0, 0xF0][bytes]
  }

  /** The octets of a character hold its bits six by six. */
  lemma SixBits(ch: nat, k: nat)
    requires ch <= MAX_LEGAL && k < BytesToWrite(ch)
    ensures 1 <= BytesToWrite(ch) <= 4 && |Utf8Of(ch)| == BytesToWrite(ch)
    ensures var bytes := BytesToWrite(ch); var rest := Shifted(ch, bytes - 1 - k);
      if k == 0 then First(rest, bytes) < 0x100 && Utf8Of(ch)[k] == First(rest, bytes) else Utf8Of(ch)[k] == Marked(rest)
  {
    assert Shifted(ch, 1) == ch / 64;
    assert Shifted(ch, 2) == ch / 64 / 64 == ch / 4096;
    assert Shifted(ch, 3) == Shifted(ch, 2) / 64 == ch / 262144;
  }

  lemma PlaceNothing(before: seq<Byte>, at: nat)
    requires at <= |before|
    ensures Placed(before, before, at, [])
  {}

  /** `*--target = b`. */
  method PutBefore(target: array<Byte>, at: nat, b: Byte, ghost before: seq<Byte>, ghost tail: seq<Byte>)
    returns (t: nat, ghost longer: seq<Byte>)
    requires 0 < at <= target.Length && Placed(before, target[..], at, tail)
    modifies target
    ensures t == at - 1 && longer == [b] + tail && Placed(before, target[..], t, longer)
  {
    t, longer := at - 1, [b] + tail;
    target[t] := b;
    assert target[at..] == tail + before[at + |tail|..];
  }

  /** The fall-through switch that writes a character backwards, as a loop. */
  method WriteBytes(code: nat, target: array<Byte>, at: nat)
    requires code <= MAX_LEGAL && at + BytesToWrite(code) <= target.Length
    modifies target
    ensures Placed(old(target[..]), target[..], at, Utf8Of(code)) && |Utf8Of(code)| == BytesToWrite(code)
  {
    hide Placed, Utf8Of, Marked, First, BytesToWrite;
    LengthOf(code);
    var bytes := BytesToWrite(code);
    var ch := code;
    var t := at + bytes;
    PlaceNothing(target[..], t);
    assert Utf8Of(code)[bytes..] == [];
    while t > at + 1
      invariant at + 1 <= t <= at + bytes
      invariant ch == Shifted(code, at + bytes - t)
      invariant Placed(old(target[..]), target[..], t, Utf8Of(code)[t - at..])
    {
      SixBits(code, t - at - 1);
      ghost var tail := Utf8Of(code)[t - at..];
      t, tail := PutBefore(target, t, Marked(ch), old(target[..]), tail);
      assert tail == Utf8Of(code)[t - at..];
      ch := ch / 64;
    }
    SixBits(code, 0);
    ghost var octets;
    t, octets := PutBefore(target, t, First(ch, bytes), old(target[..]), Utf8Of(code)[1..]);
    assert octets == Utf8Of(code);
  }

  method ConvertUTF16toUTF8(source: seq<Word>, sourceStart: nat, target: array<Byte>, targetStart: nat, targetEnd: nat, strict: bool)
    returns (at: nat, t: nat, result: Result)
    requires sourceStart <= |source| && targetStart <= targetEnd <= target.Length
    modifies target
    ensures Sane(Read16to8(strict))
    ensures Converted(Read16to8(strict), source, sourceStart, at, old(target[..]), target[..], targetStart, targetEnd, t, result)
  {
    hide Sane, Run, Going, Written, Utf8Of, Placed, BytesToWrite;
    ghost var read := Read16to8(strict);
    ghost var space := targetEnd - targetStart;
    ghost var out: seq<Byte> := [];
    Sane16to8(strict);
    Begin(read, source, sourceStart, space, target[..], targetStart);
    result := ConversionOK;
    at := sourceStart;
    t := targetStart;
    while at < |source|
      invariant at <= |source| && t == targetStart + |out| <= targetEnd
      invariant Going(read, source, sourceStart, space, at, out, false)
      invariant Written(old(target[..]), target[..], targetStart, t, out)
      invariant result == ConversionOK
    {
      var oldSource := at;
      var ch: nat := source[at];
      at := at + 1;
      if High(ch) {
        if at < |source| {
          var ch2 := source[at];
          if Low(ch2) {
            PairCodes(ch, ch2);
            ch := Pair(ch, ch2);
            at := at + 1;
          } else if strict {
            at := at - 1;
            result := SourceIllegal;
            break;
          }
        } else {
          at := at - 1;
          result := SourceExhausted;
          break;
        }
      } else if strict {
        if Low(ch) {
          at := at - 1;
          result := SourceIllegal;
          break;
        }
      }
      LengthOf(ch);
      if t + BytesToWrite(ch) > targetEnd {
        at := oldSource;
        result := TargetExhausted;
        break;
      }
      ghost var middle := target[..];
      WriteBytes(ch, target, t);
      ghost var units := read(source, oldSource).units;
      WrittenMore(old(target[..]), middle, target[..], targetStart, t, out, units);
      GoOn(read, source, sourceStart, space, oldSource, out, false);
      t := t + BytesToWrite(ch);
      out := out + units;
    }
    Stop(read, source, sourceStart, space, at, out, false);
  }

  method ConvertUTF32toUTF8(source: seq<Long>, sourceStart: nat, target: array<Byte>, targetStart: nat, targetEnd: nat, strict: bool)
    returns (at: nat, t: nat, result: Result)
    requires sourceStart <= |source| && targetStart <= targetEnd <= target.Length
    modifies target
    ensures Sane(Read32to8(strict))
    ensures Converted(Read32to8(strict), source, sourceStart, at, old(target[..]), target[..], targetStart, targetEnd, t, result)
  {
    hide Sane, Run, Going, Written, Utf8Of, Placed, BytesToWrite;
    ghost var read := Read32to8(strict);
    ghost var space := targetEnd - targetStart;
    ghost var out: seq<Byte> := [];
    ghost var odd := false;
    Sane32to8(strict);
    Begin(read, source, sourceStart, space, target[..], targetStart);
    result := ConversionOK;
    at := sourceStart;
    t := targetStart;
    while at < |source|
      invariant at <= |source| && t == targetStart + |out| <= targetEnd
      invariant Going(read, source, sourceStart, space, at, out, odd)
      invariant Written(old(target[..]), target[..], targetStart, t, out)
      invariant result == Spoiled(ConversionOK, odd)
    {
      var ch: nat := source[at];
      at := at + 1;
      if strict {
        if HIGH_START <= ch <= LOW_END {
          at := at - 1;
          result := SourceIllegal;
          break;
        }
      }
      if ch > MAX_LEGAL {
        ch := REPLACEMENT;
        result := SourceIllegal;
      }
      LengthOf(ch);
      if t + BytesToWrite(ch) > targetEnd {
        at := at - 1;
        result := TargetExhausted;
        break;
      }
      ghost var middle := target[..];
      WriteBytes(ch, target, t);
      ghost var units := read(source, at - 1).units;
      WrittenMore(old(target[..]), middle, target[..], targetStart, t, out, units);
      GoOn(read, source, sourceStart, space, at - 1, out, odd);
      t := t + BytesToWrite(ch);
      out := out + units;
      odd := odd || read(source, at - 1).odd;
    }
    Stop(read, source, sourceStart, space, at, out, odd);
  }
}
