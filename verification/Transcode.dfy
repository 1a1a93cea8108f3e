/** Resumable transcoding in general: characters are taken from a source one by one,
    and each is written whole or not at all. */
module Transcode {

  datatype Result = ConversionOK | SourceExhausted | TargetExhausted | SourceIllegal

  /** What stands at a position of the source: a character of `len` units that becomes
      `units`, the beginning of a character, or nothing legal. An `odd` character is
      converted, but spoils the result of the call. */
  datatype Item<+T> = Char(len: nat, units: seq<T>, odd: bool) | Partial | Illegal

  type Reader<-S(!new), +T(!new)> = (seq<S>, nat) -> Item<T>

  datatype Outcome<+T> = Outcome(at: nat, out: seq<T>, result: Result)

  /** Characters have a length and lie within the source; what has been recognized is
      recognized again when the source goes on, and does not depend on more than the one
      unit behind it. */
  ghost predicate Sane<S(!new), T(!new)>(read: Reader<S, T>) {
    && (forall s, i: nat :: i < |s| && read(s, i).Char? ==> read(s, i).len > 0 && i + read(s, i).len <= |s|)
    && (forall s, i: nat, n: nat :: i < n <= |s| && !read(s[..n], i).Partial? ==> read(s, i) == read(s[..n], i))
    && (forall s, i: nat, n: nat :: i < n <= |s| && read(s, i).Char? && i + read(s, i).len < n ==> read(s[..n], i) == read(s, i))
    && (forall s, i: nat, n: nat :: i < n <= |s| && read(s, i).Char? && i + read(s, i).len == n ==>
          read(s[..n], i) == read(s, i) || read(s[..n], i).Partial?)
  }

  /** An odd character turns success into failure. */
  function Spoiled(result: Result, odd: bool): Result {
    if odd && result == ConversionOK then SourceIllegal else result
  }

  /** The output of a call put in front of what comes after it. */
  function Prepend<T>(out: seq<T>, odd: bool, rest: Outcome<T>): Outcome<T> {
    Outcome(rest.at, out + rest.out, Spoiled(rest.result, odd))
  }

  /** The conversion of the source from position `i` on, with room for `space` units. */
  ghost function Run<S(!new), T(!new)>(read: Reader<S, T>, s: seq<S>, i: nat, space: nat): Outcome<T>
    requires Sane(read) && i <= |s|
    decreases |s| - i
  {
    if i == |s| then Outcome(i, [], ConversionOK) else
      var c := read(s, i);
      match c
      case Partial => Outcome(i, [], SourceExhausted)
      case Illegal => Outcome(i, [], SourceIllegal)
      case Char(len, units, odd) =>
        if |units| > space then Outcome(i, [], TargetExhausted)
        else Prepend(units, odd, Run(read, s, i + len, space - |units|))
  }

  /** Room for every conversion of what is left of the source. */
  ghost function Room<S(!new), T(!new)>(read: Reader<S, T>, s: seq<S>, i: nat): nat
    requires Sane(read) && i <= |s|
    decreases |s| - i
  {
    if i == |s| || !read(s, i).Char? then 0 else |read(s, i).units| + Room(read, s, i + read(s, i).len)
  }

  /** The whole conversion, in one call with enough room. */
  ghost function Whole<S(!new), T(!new)>(read: Reader<S, T>, s: seq<S>, i: nat): Outcome<T>
    requires Sane(read) && i <= |s|
  {
    Run(read, s, i, Room(read, s, i))
  }

  lemma SaneAt<S(!new), T(!new)>(read: Reader<S, T>, s: seq<S>, i: nat)
    requires Sane(read) && i < |s| && read(s, i).Char?
    ensures read(s, i).len > 0 && i + read(s, i).len <= |s|
  {}

  lemma SaneMore<S(!new), T(!new)>(read: Reader<S, T>, s: seq<S>, i: nat, n: nat)
    requires Sane(read) && i < n <= |s|
    ensures !read(s[..n], i).Partial? ==> read(s, i) == read(s[..n], i)
    ensures read(s, i).Char? && i + read(s, i).len < n ==> read(s[..n], i) == read(s, i)
    ensures read(s, i).Char? && i + read(s, i).len == n ==> read(s[..n], i) == read(s, i) || read(s[..n], i).Partial?
  {}

  lemma WholeStep<S(!new), T(!new)>(read: Reader<S, T>, s: seq<S>, i: nat)
    requires Sane(read) && i < |s| && read(s, i).Char?
    ensures var c := read(s, i);
      c.len > 0 && i + c.len <= |s| && Whole(read, s, i) == Prepend(c.units, c.odd, Whole(read, s, i + c.len))
  {
    SaneAt(read, s, i);
    hide Sane;
  }

  lemma WholeStop<S(!new), T(!new)>(read: Reader<S, T>, s: seq<S>, i: nat)
    requires Sane(read) && i <= |s| && (i == |s| || !read(s, i).Char?)
    ensures Whole(read, s, i) ==
      Outcome(i, [], if i == |s| then ConversionOK else if read(s, i).Partial? then SourceExhausted else SourceIllegal)
  {}

  lemma PrependTwice<T>(a: seq<T>, x: bool, b: seq<T>, y: bool, rest: Outcome<T>)
    ensures Prepend(a, x, Prepend(b, y, rest)) == Prepend(a + b, x || y, rest)
    ensures Prepend([], false, rest) == rest
  {
    assert a + (b + rest.out) == (a + b) + rest.out;
    assert [] + rest.out == rest.out;
  }

  lemma {:induction false} RunMore<S(!new), T(!new)>(read: Reader<S, T>, s: seq<S>, i: nat, space: nat, more: nat)
    requires Sane(read) && i <= |s| && space <= more && Run(read, s, i, space).result != TargetExhausted
    ensures Run(read, s, i, more) == Run(read, s, i, space)
    decreases |s| - i
  {
    if i < |s| && read(s, i).Char? {
      var c := read(s, i);
      if |c.units| <= space { RunMore(read, s, i + c.len, space - |c.units|, more - |c.units|); }
    }
  }

  lemma {:induction false} RoomEnough<S(!new), T(!new)>(read: Reader<S, T>, s: seq<S>, i: nat, space: nat)
    requires Sane(read) && i <= |s| && space >= Room(read, s, i)
    ensures Run(read, s, i, space).result != TargetExhausted
    decreases |s| - i
  {
    if i < |s| && read(s, i).Char? {
      var c := read(s, i);
      RoomEnough(read, s, i + c.len, space - |c.units|);
    }
  }

  /** Any call that does not run out of room is the whole conversion. */
  lemma RunWhole<S(!new), T(!new)>(read: Reader<S, T>, s: seq<S>, i: nat, space: nat)
    requires Sane(read) && i <= |s|
    ensures Run(read, s, i, space).result != TargetExhausted ==> Run(read, s, i, space) == Whole(read, s, i)
    ensures space >= Room(read, s, i) ==> Run(read, s, i, space) == Whole(read, s, i)
  {
    hide Sane, Run, Room;
    var room := Room(read, s, i);
    RoomEnough(read, s, i, room);
    RunMore(read, s, i, room, room + space);
    if Run(read, s, i, space).result != TargetExhausted { RunMore(read, s, i, space, room + space); }
    if space >= room { RunMore(read, s, i, room, space); }
  }

  /** The result of a call stays within its bounds. */
  lemma {:induction false} RunBounds<S(!new), T(!new)>(read: Reader<S, T>, s: seq<S>, i: nat, space: nat)
    requires Sane(read) && i <= |s|
    ensures var r := Run(read, s, i, space); i <= r.at <= |s| && |r.out| <= space
    decreases |s| - i
  {
    if i < |s| && read(s, i).Char? {
      var c := read(s, i);
      if |c.units| <= space { RunBounds(read, s, i + c.len, space - |c.units|); }
    }
  }

  /** Whether an odd character stands between `i` and `j`. */
  ghost predicate OddUpTo<S(!new), T(!new)>(read: Reader<S, T>, s: seq<S>, i: nat, j: nat)
    requires Sane(read) && i <= |s|
    decreases |s| - i
  {
    i < j && i < |s| && read(s, i).Char? && (read(s, i).odd || OddUpTo(read, s, i + read(s, i).len, j))
  }

  lemma {:induction false} OddSplit<S(!new), T(!new)>(read: Reader<S, T>, s: seq<S>, i: nat, space: nat, k: nat)
    requires Sane(read) && i <= |s| && Run(read, s, i, space).at <= k
    ensures var j := Run(read, s, i, space).at;
      i <= j <= |s| && (OddUpTo(read, s, i, k) <==> OddUpTo(read, s, i, j) || OddUpTo(read, s, j, k))
    decreases |s| - i
  {
    hide Sane;
    RunBounds(read, s, i, space);
    if i < |s| && read(s, i).Char? && |read(s, i).units| <= space {
      var c := read(s, i);
      SaneAt(read, s, i);
      RunBounds(read, s, i + c.len, space - |c.units|);
      OddSplit(read, s, i + c.len, space - |c.units|, k);
    }
  }

  /** A call that runs out of room leaves the source at the start of the next character,
      and calling again from there gives what one call would have given. */
  lemma {:induction false} ResumeTarget<S(!new), T(!new)>(read: Reader<S, T>, s: seq<S>, i: nat, space: nat)
    requires Sane(read) && i <= |s| && Run(read, s, i, space).result == TargetExhausted
    ensures var r := Run(read, s, i, space);
      && i <= r.at < |s| && read(s, r.at).Char?
      && Whole(read, s, i) == Prepend(r.out, OddUpTo(read, s, i, r.at), Whole(read, s, r.at))
    decreases |s| - i
  {
    hide Sane, Whole;
    var c := read(s, i);
    SaneAt(read, s, i);
    if |c.units| <= space {
      ResumeTarget(read, s, i + c.len, space - |c.units|);
      WholeStep(read, s, i);
      var r := Run(read, s, i + c.len, space - |c.units|);
      PrependTwice(c.units, c.odd, r.out, OddUpTo(read, s, i + c.len, r.at), Whole(read, s, r.at));
    } else {
      PrependTwice([], false, [], false, Whole(read, s, i));
    }
  }

  /** A call whose source is cut off stops at the start of a character; when the rest of
      the source arrives, going on from there gives what one call would have given. */
  lemma {:induction false} ResumeSource<S(!new), T(!new)>(read: Reader<S, T>, s: seq<S>, n: nat, i: nat)
    requires Sane(read) && i <= n <= |s|
    ensures var r := Whole(read, s[..n], i);
      && i <= r.at <= n
      && Whole(read, s, i) == Prepend(r.out, OddUpTo(read, s[..n], i, r.at), Whole(read, s, r.at))
    decreases n - i
  {
    hide Sane, Whole, Run;
    var t := s[..n];
    if i < n && read(t, i).Char? {
      var c := read(t, i);
      SaneAt(read, t, i);
      SaneMore(read, s, i, n);
      ResumeSource(read, s, n, i + c.len);
      WholeStep(read, t, i);
      WholeStep(read, s, i);
      var r := Whole(read, t, i + c.len);
      PrependTwice(c.units, c.odd, r.out, OddUpTo(read, t, i + c.len, r.at), Whole(read, s, r.at));
    } else {
      WholeStop(read, t, i);
      PrependTwice([], false, [], false, Whole(read, s, i));
    }
  }

  /** The last character from `i` up to `n` was recognized by the unit behind it only. */
  ghost predicate OpenEnd<S(!new), T(!new)>(read: Reader<S, T>, s: seq<S>, i: nat, n: nat)
    requires Sane(read) && i <= |s| && n <= |s|
    decreases |s| - i
  {
    && i < n && read(s, i).Char?
    && if i + read(s, i).len >= n then read(s[..n], i).Partial? else OpenEnd(read, s, i + read(s, i).len, n)
  }

  /** What a call has written is exactly the conversion of what it has consumed, unless
      its last character needed the unit behind it. */
  lemma {:induction false} ConsumedPrefix<S(!new), T(!new)>(read: Reader<S, T>, s: seq<S>, i: nat, space: nat)
    requires Sane(read) && i <= |s|
    ensures var r := Run(read, s, i, space);
      && i <= r.at <= |s|
      && (if OpenEnd(read, s, i, r.at) then Whole(read, s[..r.at], i).result == SourceExhausted
          else Whole(read, s[..r.at], i) == Prepend(r.out, OddUpTo(read, s, i, r.at), Outcome(r.at, [], ConversionOK)))
    decreases |s| - i
  {
    hide Sane, Whole;
    RunBounds(read, s, i, space);
    var r := Run(read, s, i, space);
    if i < |s| && read(s, i).Char? && |read(s, i).units| <= space {
      var c := read(s, i);
      SaneAt(read, s, i);
      RunBounds(read, s, i + c.len, space - |c.units|);
      SaneMore(read, s, i, r.at);
      ConsumedPrefix(read, s, i + c.len, space - |c.units|);
      var q := Run(read, s, i + c.len, space - |c.units|);
      if i + c.len == r.at && read(s[..r.at], i).Partial? {
        WholeStop(read, s[..r.at], i);
      } else {
        WholeStep(read, s[..r.at], i);
        PrependTwice(c.units, c.odd, q.out, OddUpTo(read, s, i + c.len, r.at), Outcome(r.at, [], ConversionOK));
      }
    } else {
      WholeStop(read, s[..i], i);
    }
  }

  /** Calls with the given amounts of room, each going on where the one before stopped,
      as long as they run out of room. */
  ghost function Chunks<S(!new), T(!new)>(read: Reader<S, T>, s: seq<S>, i: nat, spaces: seq<nat>): Outcome<T>
    requires Sane(read) && i <= |s|
    decreases |spaces|
  {
    if spaces == [] then Outcome(i, [], TargetExhausted) else
      RunBounds(read, s, i, spaces[0]);
      var r := Run(read, s, i, spaces[0]);
      if r.result != TargetExhausted then r else
        var rest := Chunks(read, s, r.at, spaces[1..]);
        Outcome(rest.at, r.out + rest.out, rest.result)
  }

  /** However the target is cut into chunks, the output is that of one call: a beginning
      of it while room is short, and all of it in the end. The result is that of one call
      too, but for odd characters in an earlier chunk, which the last call has forgotten. */
  lemma {:induction false} ChunksAgree<S(!new), T(!new)>(read: Reader<S, T>, s: seq<S>, i: nat, spaces: seq<nat>)
    requires Sane(read) && i <= |s|
    ensures var r := Chunks(read, s, i, spaces); var w := Whole(read, s, i);
      && i <= r.at <= |s|
      && r.out <= w.out
      && (r.result != TargetExhausted ==>
            w == Outcome(r.at, r.out, Spoiled(r.result, OddUpTo(read, s, i, r.at))))
    decreases |spaces|
  {
    hide Sane, Whole, Run, OddUpTo;
    if spaces != [] {
      RunBounds(read, s, i, spaces[0]);
      var r := Run(read, s, i, spaces[0]);
      if r.result != TargetExhausted {
        RunWhole(read, s, i, spaces[0]);
        OddSpoils(read, s, i, spaces[0]);
      } else {
        ResumeTarget(read, s, i, spaces[0]);
        ChunksAgree(read, s, r.at, spaces[1..]);
        OddSplit(read, s, i, spaces[0], Chunks(read, s, r.at, spaces[1..]).at);
      }
    }
  }

  /** A call that has seen an odd character does not succeed. */
  lemma {:induction false} OddSpoils<S(!new), T(!new)>(read: Reader<S, T>, s: seq<S>, i: nat, space: nat)
    requires Sane(read) && i <= |s|
    ensures var r := Run(read, s, i, space); OddUpTo(read, s, i, r.at) ==> r.result != ConversionOK
    decreases |s| - i
  {
    hide Sane;
    if i < |s| && read(s, i).Char? && |read(s, i).units| <= space {
      var c := read(s, i);
      SaneAt(read, s, i);
      RunBounds(read, s, i + c.len, space - |c.units|);
      OddSpoils(read, s, i + c.len, space - |c.units|);
    }
  }

  /** Taking characters one by one from `i` on leads to `j`. */
  ghost predicate Reaches<S(!new), T(!new)>(read: Reader<S, T>, s: seq<S>, i: nat, j: nat)
    requires Sane(read) && i <= |s|
    decreases |s| - i
  {
    i == j || (i < j && i < |s| && read(s, i).Char? && Reaches(read, s, i + read(s, i).len, j))
  }

  /** With room for exactly the characters before `j`, a call stops at `j`. */
  lemma {:induction false} RunTo<S(!new), T(!new)>(read: Reader<S, T>, s: seq<S>, i: nat, j: nat)
    requires Sane(read) && i <= |s| && j < |s| && Reaches(read, s, i, j)
    requires read(s, j).Char? ==> read(s, j).units != []
    ensures Room(read, s, i) >= Room(read, s, j)
    ensures var r := Run(read, s, i, Room(read, s, i) - Room(read, s, j));
      r.at == j && (read(s, j).Char? ==> r.result == TargetExhausted)
    decreases |s| - i
  {
    hide Sane;
    if i < j {
      SaneAt(read, s, i);
      RunTo(read, s, i + read(s, i).len, j);
    }
  }
}
