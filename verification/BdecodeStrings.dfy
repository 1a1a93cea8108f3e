/** What the strings of the token tree hold: the bytes their length prefixes name, except
    that one string may be too long after an error. */
module BdecodeStrings {
  import opened Bencode
  import opened Bdecode
  import opened BdecodeTree
  import opened BdecodeNode

  /** A string token stands on a sound length prefix, and knows its length. */
  predicate Prefixed(buf: Bytes, t: Token) {
    && t.kind == StringToken && t.offset < |buf| && Numeric(buf[t.offset])
    && StringHead(buf, t.offset).2 == NoError && t.header == StringHead(buf, t.offset).0 - t.offset - 2
  }

  /** Where the content of a string ends according to its length prefix. */
  function ContentEnd(buf: Bytes, t: Token): nat
    requires Prefixed(buf, t)
  {
    StringHead(buf, t.offset).0 + StringHead(buf, t.offset).1
  }

  /** Each string takes up what its prefix says, but the one at `x`, which takes up `over`
      more bytes. */
  predicate Strings(buf: Bytes, ts: seq<Token>, start: nat, x: int, over: nat) {
    forall i :: 0 <= i < |ts| && ts[i].kind == StringToken ==>
      Prefixed(buf, ts[i]) && NextOffset(ts, i, start) == ContentEnd(buf, ts[i]) + (if i == x then over else 0)
  }

  // ------------------------------------------------------------------ one item

  /** The next item is a string with a faulty length prefix. */
  predicate PrefixFails(buf: Bytes, m: Machine, depthLimit: int, left: int) {
    && m.start < |buf| && |m.stack| < depthLimit && left > 0
    && Numeric(buf[m.start]) && StringHead(buf, m.start).2 != NoError
  }

  /** Only a faulty length prefix moves the position on although the round fails. */
  lemma StepMoves(buf: Bytes, m: Machine, depthLimit: int, left: int)
    requires StackOk(m) && m.start <= |buf|
    ensures var r := Step(buf, m, depthLimit, left);
      if PrefixFails(buf, m, depthLimit, left)
      then r == Fail(m.(start := StringHead(buf, m.start).0), StringHead(buf, m.start).2, StringHead(buf, m.start).0)
      else r.Fail? ==> r.m.start == m.start
  {
    hide CheckInteger, StringHead;
  }

  lemma LeafStrings(buf: Bytes, ts: seq<Token>, start: nat, t: Token, end: nat)
    requires Strings(buf, ts, start, -1, 0) && t.offset == start
    requires t.kind == StringToken ==> Prefixed(buf, t) && end == ContentEnd(buf, t)
    ensures Strings(buf, ts + [t], end, -1, 0)
  {
    hide StringHead;
    var us := ts + [t];
    forall i | 0 <= i < |us| && us[i].kind == StringToken
      ensures Prefixed(buf, us[i]) && NextOffset(us, i, end) == ContentEnd(buf, us[i])
    {
      if i < |ts| { assert NextOffset(ts, i, start) == NextOffset(us, i, end); }
    }
  }

  /** A container gets its link. */
  lemma LinkStrings(buf: Bytes, ts: seq<Token>, start: nat, x: int, over: nat, top: nat, link: nat)
    requires Strings(buf, ts, start, x, over) && top < |ts|
    ensures Strings(buf, ts[top := ts[top].(next := link)], start, x, over)
  {
    hide StringHead;
    var us := ts[top := ts[top].(next := link)];
    forall i | 0 <= i < |us| && us[i].kind == StringToken
      ensures Prefixed(buf, us[i]) && NextOffset(us, i, start) == ContentEnd(buf, us[i]) + (if i == x then over else 0)
    {
      assert NextOffset(ts, i, start) == NextOffset(us, i, start) && Prefixed(buf, ts[i]);
    }
  }

  /** Every other round leaves each string with the bytes its prefix names. */
  lemma StepStrings(buf: Bytes, m: Machine, depthLimit: int, left: int)
    requires StackOk(m) && m.start <= |buf| && Strings(buf, m.tokens, m.start, -1, 0)
    requires !PrefixFails(buf, m, depthLimit, left)
    ensures var r := Step(buf, m, depthLimit, left).m; Strings(buf, r.tokens, r.start, -1, 0)
  {
    hide Strings, CheckInteger, StringHead;
    if m.start < |buf| && |m.stack| < depthLimit && left > 0 {
      var t := buf[m.start];
      if t == DICT {
        LeafStrings(buf, m.tokens, m.start, Token(m.start, DictToken, 0, 0), m.start + 1);
      } else if t == LIST {
        LeafStrings(buf, m.tokens, m.start, Token(m.start, ListToken, 0, 0), m.start + 1);
      } else if t == INT {
        LeafStrings(buf, m.tokens, m.start, Token(m.start, IntegerToken, 1, 0), CheckInteger(buf, m.start + 1).0 + 1);
      } else if t == END {
        EndStrings(buf, m);
      } else if Numeric(t) {
        var (at, len, _) := StringHead(buf, m.start);
        LeafStrings(buf, m.tokens, m.start, Token(m.start, StringToken, 1, at - m.start - 2), at + len);
      }
    }
  }

  lemma EndStrings(buf: Bytes, m: Machine)
    requires StackOk(m) && Strings(buf, m.tokens, m.start, -1, 0)
    ensures Strings(buf, ParseEnd(m).m.tokens, ParseEnd(m).m.start, -1, 0)
  {
    hide Strings;
    var t := Token(m.start, EndToken, 1, 0);
    LeafStrings(buf, m.tokens, m.start, t, m.start);
    LeafStrings(buf, m.tokens, m.start, t, m.start + 1);
    if m.stack != [] {
      var us, top := m.tokens + [t], m.stack[|m.stack| - 1].token;
      LinkStrings(buf, us, m.start + 1, -1, 0, top, |us| - top);
    }
  }

  // ------------------------------------------------------------------ the whole run

  /** The state before the last round, and what was left of the token limit there. */
  function Last(buf: Bytes, m: Machine, depthLimit: int, left: int): (r: (Machine, int))
    requires StackOk(m) && m.start <= |buf|
    ensures StackOk(r.0) && r.0.start <= |buf|
    decreases |buf| - m.start
  {
    StepProgress(buf, m, depthLimit, left);
    var r := Step(buf, m, depthLimit, left);
    if r.Fail? || r.m.stack == [] then (m, left) else Last(buf, r.m, depthLimit, left - 1)
  }

  lemma {:induction false} ParseStrings(buf: Bytes, m: Machine, depthLimit: int, left: int)
    requires StackOk(m) && m.start <= |buf| && Strings(buf, m.tokens, m.start, -1, 0)
    ensures var (l, k) := Last(buf, m, depthLimit, left);
      Strings(buf, l.tokens, l.start, -1, 0) && Parse(buf, m, depthLimit, left) == Step(buf, l, depthLimit, k)
    decreases |buf| - m.start
  {
    hide Step, Strings, PrefixFails;
    StepProgress(buf, m, depthLimit, left);
    StepMoves(buf, m, depthLimit, left);
    var r := Step(buf, m, depthLimit, left);
    if !(r.Fail? || r.m.stack == []) {
      StepStrings(buf, m, depthLimit, left);
      ParseStrings(buf, r.m, depthLimit, left - 1);
    }
  }

  /** Closing a container adds tokens behind the strings and changes none of them. */
  lemma CloseStrings(buf: Bytes, m: Machine, x: int, over: nat)
    requires StackOk(m) && m.stack != [] && Strings(buf, m.tokens, m.start, x, over) && x < |m.tokens|
    ensures Strings(buf, CloseTop(m).tokens, m.start, x, over)
  {
    hide StringHead;
    var ts, us := m.tokens, CloseTop(m).tokens;
    CloseSame(m);
    forall i | 0 <= i < |us| && us[i].kind == StringToken
      ensures Prefixed(buf, us[i]) && NextOffset(us, i, m.start) == ContentEnd(buf, us[i]) + (if i == x then over else 0)
    {
      assert i < |ts| && Prefixed(buf, ts[i]) && NextOffset(ts, i, m.start) == NextOffset(us, i, m.start);
    }
  }

  predicate Same(a: Token, b: Token) { a.offset == b.offset && a.kind == b.kind && a.header == b.header }

  /** `us` continues `ts`, but for the links, with tokens at `start` that are not strings. */
  predicate Continues(ts: seq<Token>, us: seq<Token>, start: nat) {
    && |ts| <= |us|
    && (forall i :: 0 <= i < |ts| ==> Same(ts[i], us[i]))
    && forall i :: |ts| <= i < |us| ==> us[i].offset == start && us[i].kind != StringToken
  }

  lemma CloseSame(m: Machine)
    requires StackOk(m) && m.stack != []
    ensures Continues(m.tokens, CloseTop(m).tokens, m.start)
  {}

  lemma {:induction false} UnwindStrings(buf: Bytes, m: Machine, x: int, over: nat)
    requires StackOk(m) && Strings(buf, m.tokens, m.start, x, over) && x < |m.tokens|
    ensures Strings(buf, Unwind(m).tokens, m.start, x, over) && Continues(m.tokens, Unwind(m).tokens, m.start)
    decreases |m.stack|
  {
    hide Strings;
    if m.stack != [] {
      CloseStrings(buf, m, x, over);
      CloseSame(m);
      UnwindStrings(buf, CloseTop(m), x, over);
    }
  }

  // ------------------------------------------------------------------- the result

  /** Where the parser stood before the round in which it finished or failed. */
  function Stop(buf: Bytes, depthLimit: int, tokenLimit: int): (r: (Machine, int))
    ensures StackOk(r.0) && r.0.start <= |buf|
  {
    Last(buf, EMPTY_MACHINE, depthLimit, tokenLimit)
  }

  /** The parser failed inside the length prefix of a string. */
  predicate Cut(buf: Bytes, depthLimit: int, tokenLimit: int) {
    PrefixFails(buf, Stop(buf, depthLimit, tokenLimit).0, depthLimit, Stop(buf, depthLimit, tokenLimit).1)
  }

  /** The bytes of that prefix that were passed. */
  function Passed(buf: Bytes, depthLimit: int, tokenLimit: int): (n: nat)
    requires Cut(buf, depthLimit, tokenLimit)
    ensures n > 0
  {
    var at := Stop(buf, depthLimit, tokenLimit).0.start;
    StringHead(buf, at).0 - at
  }

  lemma EmptyStop(depthLimit: int, tokenLimit: int)
    ensures Last([], EMPTY_MACHINE, depthLimit, tokenLimit) == (EMPTY_MACHINE, tokenLimit)
    ensures Parse([], EMPTY_MACHINE, depthLimit, tokenLimit) == Fail(EMPTY_MACHINE, UnexpectedEof, 0)
  {}

  /** Every string token stands on a sound length prefix. Its bytes end where the prefix
      says, unless the parser failed inside the prefix of another string and this was the
      last token before it: then it has the bytes of that prefix that were passed, too. */
  lemma StringExtents(buf: Bytes, depthLimit: int, tokenLimit: int, i: nat)
    requires |buf| <= MAX_OFFSET
    ensures var ts := Decode(buf, depthLimit, tokenLimit).tokens;
      i < |ts| && ts[i].kind == StringToken ==>
        && i + 1 < |ts| && Prefixed(buf, ts[i])
        && ts[i + 1].offset == ContentEnd(buf, ts[i]) +
             (if Cut(buf, depthLimit, tokenLimit) && i + 1 == |Stop(buf, depthLimit, tokenLimit).0.tokens|
              then Passed(buf, depthLimit, tokenLimit) else 0)
  {
    hide Step, StringHead, Parse, Last, Unwind, Strings, PrefixFails;
    var (l, k) := Stop(buf, depthLimit, tokenLimit);
    var cut := Cut(buf, depthLimit, tokenLimit);
    var x, over := if cut then |l.tokens| - 1 else -1, if cut then Passed(buf, depthLimit, tokenLimit) else 0;
    RunStrings(buf, depthLimit, tokenLimit);
    EmptyStop(depthLimit, tokenLimit);
    var m := Parse(buf, EMPTY_MACHINE, depthLimit, tokenLimit).m;
    ParseStackOk(buf, EMPTY_MACHINE, depthLimit, tokenLimit);
    UnwindStrings(buf, m, x, over);
    UnwindStart(m);
    LastString(buf, Unwind(m).tokens, m.start, x, over, i);
  }

  lemma LastString(buf: Bytes, ts: seq<Token>, start: nat, x: int, over: nat, i: nat)
    requires Strings(buf, ts, start, x, over)
    ensures var us := ts + [Token(start, EndToken, 0, 0)];
      i < |us| && us[i].kind == StringToken ==>
        i + 1 < |us| && Prefixed(buf, us[i]) && us[i + 1].offset == ContentEnd(buf, us[i]) + (if i == x then over else 0)
  {
    hide StringHead;
    if i < |ts| && ts[i].kind == StringToken { assert NextOffset(ts, i, start) == (ts + [Token(start, EndToken, 0, 0)])[i + 1].offset; }
  }

  /** The strings when the loop ends, before the open containers are closed. */
  lemma RunStrings(buf: Bytes, depthLimit: int, tokenLimit: int)
    ensures var (l, k) := Stop(buf, depthLimit, tokenLimit); var r := Parse(buf, EMPTY_MACHINE, depthLimit, tokenLimit);
      if Cut(buf, depthLimit, tokenLimit)
      then r.Fail? && r.m.tokens == l.tokens && Strings(buf, r.m.tokens, r.m.start, |l.tokens| - 1, Passed(buf, depthLimit, tokenLimit))
      else Strings(buf, r.m.tokens, r.m.start, -1, 0)
  {
    hide Step, StringHead, Parse, Last;
    ParseStrings(buf, EMPTY_MACHINE, depthLimit, tokenLimit);
    var (l, k) := Stop(buf, depthLimit, tokenLimit);
    StepMoves(buf, l, depthLimit, k);
    if Cut(buf, depthLimit, tokenLimit) {
      PassedStrings(buf, l.tokens, l.start, Passed(buf, depthLimit, tokenLimit));
    } else {
      StepStrings(buf, l, depthLimit, k);
    }
  }

  lemma PassedStrings(buf: Bytes, ts: seq<Token>, start: nat, over: nat)
    requires Strings(buf, ts, start, -1, 0)
    ensures Strings(buf, ts, start + over, |ts| - 1, over)
  {
    hide StringHead;
    forall i | 0 <= i < |ts| && ts[i].kind == StringToken
      ensures Prefixed(buf, ts[i]) && NextOffset(ts, i, start + over) == ContentEnd(buf, ts[i]) + (if i == |ts| - 1 then over else 0)
    {
      assert NextOffset(ts, i, start) == ContentEnd(buf, ts[i]);
    }
  }

  /** The string that is too long is the last thing that was parsed: what comes behind it
      was added to close the open containers, at the position of the error. */
  lemma CutTail(buf: Bytes, depthLimit: int, tokenLimit: int)
    requires |buf| <= MAX_OFFSET && Cut(buf, depthLimit, tokenLimit)
    ensures var r := Decode(buf, depthLimit, tokenLimit); var (l, _) := Stop(buf, depthLimit, tokenLimit);
      && r.err == StringHead(buf, l.start).2 && r.pos == l.start + Passed(buf, depthLimit, tokenLimit)
      && Continues(l.tokens, r.tokens, r.pos)
  {
    hide Step, StringHead, Parse, Last, Unwind;
    var (l, k) := Stop(buf, depthLimit, tokenLimit);
    ParseStrings(buf, EMPTY_MACHINE, depthLimit, tokenLimit);
    StepMoves(buf, l, depthLimit, k);
    RunStrings(buf, depthLimit, tokenLimit);
    var m := Parse(buf, EMPTY_MACHINE, depthLimit, tokenLimit).m;
    ParseStackOk(buf, EMPTY_MACHINE, depthLimit, tokenLimit);
    EmptyStop(depthLimit, tokenLimit);
    UnwindStrings(buf, m, |l.tokens| - 1, Passed(buf, depthLimit, tokenLimit));
    UnwindStart(m);
  }

  /** The bytes of string `i` end where its prefix says. */
  predicate Exact(buf: Bytes, ts: seq<Token>, i: nat)
    requires i < |ts|
  {
    ts[i].kind == StringToken ==> i + 1 < |ts| && Prefixed(buf, ts[i]) && ts[i + 1].offset == ContentEnd(buf, ts[i])
  }

  /** All strings are right exactly unless the parser failed inside the length prefix of a
      string that directly followed another one. */
  lemma StringsExact(buf: Bytes, depthLimit: int, tokenLimit: int)
    requires |buf| <= MAX_OFFSET
    ensures var ts := Decode(buf, depthLimit, tokenLimit).tokens; var before := Stop(buf, depthLimit, tokenLimit).0.tokens;
      (forall i :: 0 <= i < |ts| ==> Exact(buf, ts, i)) <==>
      !(Cut(buf, depthLimit, tokenLimit) && before != [] && before[|before| - 1].kind == StringToken)
  {
    hide Step, StringHead, Parse, Last, Unwind, Decode, Prefixed;
    var ts := Decode(buf, depthLimit, tokenLimit).tokens;
    var before := Stop(buf, depthLimit, tokenLimit).0.tokens;
    forall i | 0 <= i < |ts|
      ensures !(Cut(buf, depthLimit, tokenLimit) && i + 1 == |before|) ==> Exact(buf, ts, i)
      ensures Cut(buf, depthLimit, tokenLimit) && i + 1 == |before| ==> (Exact(buf, ts, i) <==> ts[i].kind != StringToken)
    {
      StringExtents(buf, depthLimit, tokenLimit, i);
    }
    if Cut(buf, depthLimit, tokenLimit) {
      CutTail(buf, depthLimit, tokenLimit);
      if before != [] { assert Same(before[|before| - 1], ts[|before| - 1]); }
    }
  }

  /** A buffer that decodes without error has every string right: the content that the
      node returns is the one its length prefix names. */
  lemma DecodedString(buf: Bytes, depthLimit: int, tokenLimit: int, i: nat)
    requires |buf| <= MAX_OFFSET && Decode(buf, depthLimit, tokenLimit).err == NoError
    ensures var ts := Decode(buf, depthLimit, tokenLimit).tokens;
      i < |ts| && ts[i].kind == StringToken ==>
        && Prefixed(buf, ts[i]) && ts[i].offset + ts[i].header + 2 <= ContentEnd(buf, ts[i]) <= |buf|
        && i + 1 < |ts| && ts[i + 1].offset == ContentEnd(buf, ts[i])
        && StringAt(ts, buf, i) == buf[ts[i].offset + ts[i].header + 2..ContentEnd(buf, ts[i])]
  {
    hide Step, Parse, Last, Unwind, Decode;
    if Cut(buf, depthLimit, tokenLimit) { CutTail(buf, depthLimit, tokenLimit); }
    StringExtents(buf, depthLimit, tokenLimit, i);
  }
}
