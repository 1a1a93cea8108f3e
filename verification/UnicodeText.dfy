/** Text as a sequence of code points, in any encoding: what it takes for a converter to
    translate exactly the text of one encoding into the other. */
module UnicodeText {
  import opened Transcode
  import opened Unicode

  type Encoding<!T> = ScalarValue -> seq<T>

  /** Text in an encoding: one character after the other. */
  ghost function Text<T>(encode: Encoding<T>, cps: seq<ScalarValue>): seq<T> {
    if cps == [] then [] else encode(cps[0]) + Text(encode, cps[1..])
  }

  ghost predicate IsText<T(!new)>(encode: Encoding<T>, s: seq<T>) {
    exists cps: seq<ScalarValue> :: s == Text(encode, cps)
  }

  ghost predicate StartsAt<T>(s: seq<T>, i: nat, u: seq<T>) { i + |u| <= |s| && s[i..i + |u|] == u }

  /** The reader recognizes the characters of one encoding, each as it is in the other,
      and nothing else unless it marks it as odd. */
  ghost predicate Translates<S(!new), T(!new)>(read: Reader<S, T>, from: Encoding<S>, to: Encoding<T>) {
    && (forall cp: ScalarValue :: |from(cp)| > 0)
    && (forall s, i: nat, cp: ScalarValue :: StartsAt(s, i, from(cp)) ==> read(s, i) == Char(|from(cp)|, to(cp), false))
    && (forall s, i: nat :: i < |s| && read(s, i).Char? && !read(s, i).odd ==>
          exists cp: ScalarValue :: StartsAt(s, i, from(cp)))
  }

  /** Text of the one encoding becomes the same text in the other. */
  lemma {:induction false} TextConverted<S(!new), T(!new)>(read: Reader<S, T>, from: Encoding<S>, to: Encoding<T>,
      cps: seq<ScalarValue>, s: seq<S>, i: nat)
    requires Sane(read) && Translates(read, from, to) && i <= |s| && s[i..] == Text(from, cps)
    ensures Whole(read, s, i) == Outcome(|s|, Text(to, cps), ConversionOK)
    decreases |cps|
  {
    hide Sane, Whole;
    if cps != [] {
      var n := |from(cps[0])|;
      assert from(cps[0]) == s[i..][..n] == s[i..i + n];
      assert StartsAt(s, i, from(cps[0]));
      assert Text(from, cps[1..]) == s[i..][n..] == s[i + n..];
      TextConverted(read, from, to, cps[1..], s, i + n);
      WholeStep(read, s, i);
    } else {
      assert |s[i..]| == 0;
      WholeStop(read, s, i);
    }
  }

  /** A conversion that succeeds has read text. */
  lemma {:induction false} SuccessIsText<S(!new), T(!new)>(read: Reader<S, T>, from: Encoding<S>, to: Encoding<T>,
      s: seq<S>, i: nat)
    returns (cps: seq<ScalarValue>)
    requires Sane(read) && Translates(read, from, to) && i <= |s| && Whole(read, s, i).result == ConversionOK
    ensures s[i..] == Text(from, cps)
    decreases |s| - i
  {
    hide Sane, Whole;
    if i == |s| || !read(s, i).Char? {
      WholeStop(read, s, i);
      cps := [];
    } else {
      WholeStep(read, s, i);
      var cp: ScalarValue :| StartsAt(s, i, from(cp));
      var n := |from(cp)|;
      var rest := SuccessIsText(read, from, to, s, i + n);
      cps := [cp] + rest;
      assert s[i..] == s[i..i + n] + s[i + n..];
      assert cps[1..] == rest;
    }
  }

  /** A translating converter with enough room succeeds exactly on text, and gives the
      same text in the other encoding. */
  lemma TranslatesText<S(!new), T(!new)>(read: Reader<S, T>, from: Encoding<S>, to: Encoding<T>, s: seq<S>)
    requires Sane(read) && Translates(read, from, to)
    ensures Whole(read, s, 0).result == ConversionOK <==> IsText(from, s)
    ensures forall cps: seq<ScalarValue> :: s == Text(from, cps) ==> Whole(read, s, 0) == Outcome(|s|, Text(to, cps), ConversionOK)
  {
    hide Sane, Whole, Translates;
    assert s[0..] == s;
    forall cps: seq<ScalarValue> | s == Text(from, cps)
      ensures Whole(read, s, 0) == Outcome(|s|, Text(to, cps), ConversionOK)
    {
      TextConverted(read, from, to, cps, s, 0);
    }
    if Whole(read, s, 0).result == ConversionOK {
      var cps := SuccessIsText(read, from, to, s, 0);
    }
  }

  /** Converters in opposite directions undo each other, wherever the first succeeds. */
  lemma ThereAndBack<S(!new), T(!new)>(there: Reader<S, T>, back: Reader<T, S>, from: Encoding<S>, to: Encoding<T>, s: seq<S>)
    requires Sane(there) && Sane(back) && Translates(there, from, to) && Translates(back, to, from)
    requires Whole(there, s, 0).result == ConversionOK
    ensures var r := Whole(there, s, 0);
      r.at == |s| && Whole(back, r.out, 0) == Outcome(|r.out|, s, ConversionOK)
  {
    hide Sane, Whole, Translates;
    TranslatesText(there, from, to, s);
    var cps: seq<ScalarValue> :| s == Text(from, cps);
    TranslatesText(back, to, from, Text(to, cps));
  }
}
