/** The tokens against the text: what stands in the buffer for each token of a decoding
    without error, how the containers close, and which fault ends any other decoding. */
module BdecodeText {
  import opened Bencode
  import opened Bdecode
  import opened BdecodeTree
  import opened BdecodeNode
  import opened BdecodeStrings

  // ------------------------------------------------------------------ one token

  /** The bytes up to `end` are exactly the token's own: the letter that opens a container,
      the `e` that closes it, a whole integer, or a whole string. */
  predicate Spans(buf: Bytes, t: Token, end: nat) {
    match t.kind
    case DictToken => t.offset < |buf| && buf[t.offset] == DICT && end == t.offset + 1
    case ListToken => t.offset < |buf| && buf[t.offset] == LIST && end == t.offset + 1
    case EndToken => t.offset < |buf| && buf[t.offset] == END && end == t.offset + 1
    case IntegerToken => t.offset < |buf| && buf[t.offset] == INT && end > 0 && IntegerText(buf, t.offset + 1, end - 1)
    case StringToken =>
      var colon := t.offset + t.header + 1;
      t.header <= MAX_HEADER && PrefixText(buf, t.offset, colon) && end == colon + 1 + Number(buf, t.offset, colon)
  }

  /** The tokens take up the text from the first one to `start` without a gap. */
  predicate Spelled(buf: Bytes, ts: seq<Token>, start: nat) {
    forall i :: 0 <= i < |ts| ==> Spans(buf, ts[i], NextOffset(ts, i, start))
  }

  lemma SpelledSnoc(buf: Bytes, ts: seq<Token>, start: nat, t: Token, end: nat)
    requires Spelled(buf, ts, start) && t.offset == start && Spans(buf, t, end)
    ensures Spelled(buf, ts + [t], end)
  {
    hide Spans;
    var us := ts + [t];
    forall i | 0 <= i < |us| ensures Spans(buf, us[i], NextOffset(us, i, end)) {
      if i < |ts| { assert NextOffset(us, i, end) == NextOffset(ts, i, start); }
    }
  }

  lemma SpelledLink(buf: Bytes, ts: seq<Token>, start: nat, top: nat, link: nat)
    requires Spelled(buf, ts, start) && top < |ts|
    ensures Spelled(buf, ts[top := ts[top].(next := link)], start)
  {
    hide IntegerText, PrefixText;
    var us := ts[top := ts[top].(next := link)];
    forall i | 0 <= i < |us| ensures Spans(buf, us[i], NextOffset(us, i, start)) {
      assert NextOffset(us, i, start) == NextOffset(ts, i, start) && Spans(buf, ts[i], NextOffset(ts, i, start));
    }
  }

  lemma StepSpelled(buf: Bytes, m: Machine, depthLimit: int, left: int)
    requires StackOk(m) && m.start <= |buf| && Spelled(buf, m.tokens, m.start) && Step(buf, m, depthLimit, left).Go?
    ensures var r := Step(buf, m, depthLimit, left).m; Spelled(buf, r.tokens, r.start)
  {
    hide Spelled, CheckInteger, StringHead, IntegerText, PrefixText;
    var t := buf[m.start];
    if t == DICT {
      SpelledSnoc(buf, m.tokens, m.start, Token(m.start, DictToken, 0, 0), m.start + 1);
    } else if t == LIST {
      SpelledSnoc(buf, m.tokens, m.start, Token(m.start, ListToken, 0, 0), m.start + 1);
    } else if t == INT {
      CheckIntegerText(buf, m.start + 1);
      SpelledSnoc(buf, m.tokens, m.start, Token(m.start, IntegerToken, 1, 0), CheckInteger(buf, m.start + 1).0 + 1);
    } else if t == END {
      var us, top := m.tokens + [Token(m.start, EndToken, 1, 0)], m.stack[|m.stack| - 1].token;
      SpelledSnoc(buf, m.tokens, m.start, Token(m.start, EndToken, 1, 0), m.start + 1);
      SpelledLink(buf, us, m.start + 1, top, |us| - top);
    } else {
      var (at, len, _) := StringHead(buf, m.start);
      StringHeadText(buf, m.start);
      SpelledSnoc(buf, m.tokens, m.start, Token(m.start, StringToken, 1, at - m.start - 2), at + len);
    }
  }

  // ------------------------------------------------------------------ containers

  /** The container's link leads just past an end token, and walking over its items
      arrives exactly there; a dictionary holds whole pairs. */
  predicate Closes(ts: seq<Token>, i: nat)
    requires i < |ts|
  {
    && ts[i].next > 1 && i + ts[i].next <= |ts| && ts[i + ts[i].next - 1].kind == EndToken
    && Chain(ts, i + 1, i + ts[i].next - 1, ts[i].kind == DictToken, true, true)
  }

  predicate AllClose(ts: seq<Token>) {
    forall i :: 0 <= i < |ts| && Container(ts[i]) && ts[i].next > 0 ==> Closes(ts, i)
  }

  lemma {:induction false} ChainExtends(ts: seq<Token>, us: seq<Token>, i: nat, j: nat, dict: bool, key: bool, end: bool)
    requires Chain(ts, i, j, dict, key, end) && Extends(ts, us)
    ensures Chain(us, i, j, dict, key, end)
    decreases j - i
  {
    if i < j { ChainExtends(ts, us, i + ts[i].next, j, dict, !key, end); }
  }

  lemma ClosesExtends(ts: seq<Token>, us: seq<Token>)
    requires AllClose(ts) && Extends(ts, us)
    ensures forall i :: 0 <= i < |ts| && Container(ts[i]) && ts[i].next > 0 ==> Closes(us, i)
  {
    hide Chain;
    forall i | 0 <= i < |ts| && Container(ts[i]) && ts[i].next > 0 ensures Closes(us, i) {
      ChainExtends(ts, us, i + 1, i + ts[i].next - 1, ts[i].kind == DictToken, true, true);
    }
  }

  lemma SnocCloses(ts: seq<Token>, t: Token)
    requires AllClose(ts) && (Container(t) ==> t.next == 0)
    ensures AllClose(ts + [t])
  {
    hide Closes;
    ClosesExtends(ts, ts + [t]);
  }

  /** The end token of the innermost container arrives. */
  lemma EndCloses(buf: Bytes, m: Machine)
    requires Building(buf, m) && StackOk(m) && AllClose(m.tokens) && ParseEnd(m).Go?
    ensures AllClose(ParseEnd(m).m.tokens)
  {
    hide Shape, Offsets, Chain;
    var ts, n := m.tokens, |m.stack| - 1;
    var top := m.stack[n].token;
    var us := ParseEnd(m).m.tokens;
    ShapeStack(m);
    assert Extends(ts, us);
    ClosesExtends(ts, us);
    assert FrameChain(ts, m.stack, n);
    var dict := ts[top].kind == DictToken;
    ChainFrame(ts, us, top + 1, |ts|, dict, true, !m.stack[n].value);
    ChainAny(us, top + 1, |ts|, !m.stack[n].value, true, dict);
    assert us[|ts|].kind == EndToken;
    forall i | 0 <= i < |us| && Container(us[i]) && us[i].next > 0 ensures Closes(us, i) {
      if i < |ts| && i != top { assert us[i] == ts[i]; }
    }
  }

  lemma StepCloses(buf: Bytes, m: Machine, depthLimit: int, left: int)
    requires Building(buf, m) && StackOk(m) && AllClose(m.tokens) && Step(buf, m, depthLimit, left).Go?
    ensures AllClose(Step(buf, m, depthLimit, left).m.tokens)
  {
    hide Building, AllClose, CheckInteger, StringHead, ParseEnd;
    Bounds(buf, m);
    if buf[m.start] == END {
      EndCloses(buf, m);
    } else {
      var us := Step(buf, m, depthLimit, left).m.tokens;
      SnocCloses(m.tokens, us[|us| - 1]);
    }
  }

  /** The first token stays open until everything is read, and then spans all tokens. */
  lemma StepRoot(buf: Bytes, m: Machine, depthLimit: int, left: int)
    requires StackOk(m) && m.start <= |buf| && Rooted(m) && Step(buf, m, depthLimit, left).Go?
    ensures var r := Step(buf, m, depthLimit, left).m;
      if r.stack == [] then r.tokens != [] && r.tokens[0].next == |r.tokens| else Rooted(r)
    ensures left > 0
  {
    hide CheckInteger, StringHead;
  }

  // --------------------------------------------------------------------- the run

  /** What holds when the parser finished without error. */
  predicate Finished(buf: Bytes, m: Machine) {
    && Spelled(buf, m.tokens, m.start) && AllClose(m.tokens)
    && m.tokens != [] && m.tokens[0].next == |m.tokens| && m.tokens[0].offset == 0
  }

  lemma {:induction false} ParseFinishes(buf: Bytes, m: Machine, depthLimit: int, left: int)
    requires Building(buf, m) && StackOk(m) && |buf| <= MAX_OFFSET && m.start <= |buf|
    requires Spelled(buf, m.tokens, m.start) && AllClose(m.tokens) && Rooted(m)
    requires if m.tokens == [] then m.start == 0 else m.tokens[0].offset == 0
    requires Parse(buf, m, depthLimit, left).Go?
    ensures var r := Parse(buf, m, depthLimit, left).m; Finished(buf, r) && |r.tokens| - |m.tokens| <= left
    decreases |buf| - m.start
  {
    hide Step, Building, Spelled, AllClose, Rooted;
    StepProgress(buf, m, depthLimit, left);
    StepKeeps(buf, m, depthLimit, left);
    var r := Step(buf, m, depthLimit, left);
    StepSpelled(buf, m, depthLimit, left);
    StepCloses(buf, m, depthLimit, left);
    StepRoot(buf, m, depthLimit, left);
    StepFirst(buf, m, depthLimit, left);
    if r.m.stack != [] { ParseFinishes(buf, r.m, depthLimit, left - 1); }
  }

  lemma StepFirst(buf: Bytes, m: Machine, depthLimit: int, left: int)
    requires StackOk(m) && m.start <= |buf| && Step(buf, m, depthLimit, left).Go?
    ensures var ts := Step(buf, m, depthLimit, left).m.tokens;
      ts != [] && ts[0].offset == if m.tokens == [] then m.start else m.tokens[0].offset
  {
    hide CheckInteger, StringHead;
  }

  /** A decoding without error read one item from the start of the buffer: each token takes
      up exactly the bytes of its text, each container closes with its own end token, the
      first token spans all others, and one more token marks where the item ends. */
  lemma DecodedText(buf: Bytes, depthLimit: int, tokenLimit: int)
    requires |buf| <= MAX_OFFSET && Decode(buf, depthLimit, tokenLimit).err == NoError
    ensures var r := Decode(buf, depthLimit, tokenLimit); var n := |r.tokens| - 1; var body := r.tokens[..n];
      && 0 < n <= tokenLimit && r.tokens[n] == Token(r.pos, EndToken, 0, 0) && r.pos <= |buf|
      && body[0].offset == 0 && body[0].next == n
      && (forall i :: 0 <= i < n ==> Spans(buf, body[i], r.tokens[i + 1].offset))
      && (forall i :: 0 <= i < n && Container(body[i]) ==> Closes(body, i))
  {
    hide Parse, Step, Building, Spans, Closes, Decode;
    DecodeIs(buf, depthLimit, tokenLimit);
    EmptyBuilding(buf);
    var m := Parse(buf, EMPTY_MACHINE, depthLimit, tokenLimit).m;
    ParseFinishes(buf, EMPTY_MACHINE, depthLimit, tokenLimit);
    ParseKeeps(buf, EMPTY_MACHINE, depthLimit, tokenLimit);
    ParseStackOk(buf, EMPTY_MACHINE, depthLimit, tokenLimit);
    var r := Decode(buf, depthLimit, tokenLimit);
    NoneOpen(buf, m);
    assert r.tokens[..|r.tokens| - 1] == m.tokens;
    forall i | 0 <= i < |m.tokens| ensures Spans(buf, m.tokens[i], r.tokens[i + 1].offset) {
      assert NextOffset(m.tokens, i, m.start) == r.tokens[i + 1].offset;
    }
  }

  lemma NoneOpen(buf: Bytes, m: Machine)
    requires Building(buf, m) && m.stack == []
    ensures forall i :: 0 <= i < |m.tokens| && Container(m.tokens[i]) ==> m.tokens[i].next > 0
  {}

  lemma DecodeIs(buf: Bytes, depthLimit: int, tokenLimit: int)
    requires |buf| <= MAX_OFFSET
    ensures var p := Parse(buf, EMPTY_MACHINE, depthLimit, tokenLimit); var r := Decode(buf, depthLimit, tokenLimit);
      && (p.Fail? ==> r.err == p.err && r.pos == p.pos)
      && (r.err == NoError <==> p.Go?)
      && (p.Go? ==> r.pos == p.m.start && r.tokens == p.m.tokens + [Token(p.m.start, EndToken, 0, 0)])
  {
    hide Parse;
    var p := Parse(buf, EMPTY_MACHINE, depthLimit, tokenLimit);
    ParseStackOk(buf, EMPTY_MACHINE, depthLimit, tokenLimit);
    if buf == [] { EmptyStop(depthLimit, tokenLimit); }
    ParseErr(buf, EMPTY_MACHINE, depthLimit, tokenLimit);
    if p.Go? { UnwindNone(p.m); }
  }

  // ---------------------------------------------------------------------- faults

  predicate KeyDue(m: Machine)
    requires StackOk(m)
  {
    InDict(m) && !m.stack[|m.stack| - 1].value
  }

  /** There is a byte to read, and room for one more container and one more token. */
  predicate Room(buf: Bytes, m: Machine, depthLimit: int, left: int) {
    m.start < |buf| && |m.stack| < depthLimit && left > 0
  }

  /** The `e` read here ends nothing, leaves a key without its value, or closes a container
      whose link would not fit. */
  predicate EndFault(m: Machine, e: Error)
    requires StackOk(m)
  {
    match e
    case UnexpectedEof => m.stack == []
    case ExpectedValue => InDict(m) && !KeyDue(m)
    case LimitExceeded => m.stack != [] && (InDict(m) ==> KeyDue(m)) && |m.tokens| + 1 - m.stack[|m.stack| - 1].token > MAX_NEXT_ITEM
    case _ => false
  }

  /** The next item cannot be read, and `pos` is the position to report. */
  predicate Fault(buf: Bytes, m: Machine, depthLimit: int, left: int, e: Error, pos: nat)
    requires StackOk(m) && m.start <= |buf|
  {
    || (pos == m.start == |buf| && e == UnexpectedEof)
    || (pos == m.start < |buf| && |m.stack| >= depthLimit && e == DepthExceeded)
    || (pos == m.start < |buf| && |m.stack| < depthLimit && left <= 0 && e == LimitExceeded)
    || (Room(buf, m, depthLimit, left) && ItemFault(buf, m, e, pos))
  }

  predicate ItemFault(buf: Bytes, m: Machine, e: Error, pos: nat)
    requires StackOk(m) && m.start < |buf|
  {
    var t := buf[m.start];
    if Numeric(t) then PrefixFault(buf, m.start, pos, e)
    else if t == END then pos == m.start && EndFault(m, e)
    else if KeyDue(m) then pos == m.start && e == ExpectedDigit
    else if t == INT then e != NoError && IntegerScan(buf, m.start + 1, pos, e)
    else pos == m.start && e == ExpectedValue && t != DICT && t != LIST
  }

  lemma SameRun(buf: Bytes, first: nat, a: nat, b: nat)
    requires AllDigits(buf, first, a) && AllDigits(buf, first, b) && (a < |buf| ==> !Numeric(buf[a]))
    ensures b <= a
  {}

  lemma ScanUnique(buf: Bytes, at: nat, stop: nat, e: Error, stop': nat, e': Error)
    requires IntegerScan(buf, at, stop, e) && IntegerScan(buf, at, stop', e')
    ensures stop == stop' && e == e'
  {
    hide IntegerText;
    SameRun(buf, Unsigned(buf, at), stop, stop');
    SameRun(buf, Unsigned(buf, at), stop', stop);
  }

  /** The prefix of a string is faulty in one way at most. */
  lemma PrefixUnique(buf: Bytes, start: nat, at: nat, len: int, e: Error, at': nat, e': Error)
    requires PrefixRead(buf, start, at, len, e) && PrefixFault(buf, start, at', e')
    ensures at == at' && e == e'
  {
    hide Number;
    assert e' != NoError;
    var d, d' := Run(buf, at, e), Run(buf, at', e');
    if d < d' { DigitsFurther(buf, start, d, d'); }
    if d' < d { DigitsFurther(buf, start, d', d); }
  }

  /** Where the digits that were read end. */
  function Run(buf: Bytes, at: nat, e: Error): nat {
    if at > 0 && (e == NoError || e == LimitExceeded || (e == UnexpectedEof && at == |buf| && buf[at - 1] == COLON)) then at - 1 else at
  }

  lemma DigitsFurther(buf: Bytes, start: nat, d: nat, d': nat)
    requires AllDigits(buf, start, d') && start <= d < d'
    ensures Numeric(buf[d]) && AllDigits(buf, start, d + 1) && Number(buf, start, d + 1) <= Number(buf, start, d')
  {
    NumberGrows(buf, start, d + 1, d');
  }

  /** A round fails with this error at this position exactly when the item has this fault. */
  lemma StepFault(buf: Bytes, m: Machine, depthLimit: int, left: int, e: Error, pos: nat)
    requires StackOk(m) && m.start <= |buf|
    ensures var r := Step(buf, m, depthLimit, left);
      r.Fail? && r.err == e && r.pos == pos <==> Fault(buf, m, depthLimit, left, e, pos)
  {
    hide CheckInteger, StringHead, IntegerScan, PrefixRead, PrefixFault;
    if Room(buf, m, depthLimit, left) {
      if Numeric(buf[m.start]) {
        StringFault(buf, m.start, e, pos);
      } else if buf[m.start] == INT {
        IntegerFault(buf, m.start + 1, e, pos);
      }
    }
  }

  lemma StringFault(buf: Bytes, start: nat, e: Error, pos: nat)
    requires start < |buf| && Numeric(buf[start])
    ensures var (at, _, f) := StringHead(buf, start); f != NoError && f == e && at == pos <==> PrefixFault(buf, start, pos, e)
  {
    hide StringHead;
    StringHeadText(buf, start);
    var (at, len, f) := StringHead(buf, start);
    hide Number, AllDigits, Length, PrefixText;
    if PrefixFault(buf, start, pos, e) { PrefixUnique(buf, start, at, len, f, pos, e); }
  }

  lemma IntegerFault(buf: Bytes, at: nat, e: Error, pos: nat)
    requires at <= |buf|
    ensures var (stop, f) := CheckInteger(buf, at); f != NoError && f == e && stop == pos <==> e != NoError && IntegerScan(buf, at, pos, e)
  {
    hide CheckInteger, IntegerScan;
    CheckIntegerText(buf, at);
    var (stop, f) := CheckInteger(buf, at);
    if IntegerScan(buf, at, pos, e) { ScanUnique(buf, at, stop, f, pos, e); }
  }

  /** The error and the position that are reported are those of the fault in the item where
      the parser stopped, and there is none exactly when that item has no fault. */
  lemma DecodeFault(buf: Bytes, depthLimit: int, tokenLimit: int, e: Error, pos: nat)
    requires |buf| <= MAX_OFFSET
    ensures var r := Decode(buf, depthLimit, tokenLimit); var (l, k) := Stop(buf, depthLimit, tokenLimit);
      e != NoError && r.err == e && r.pos == pos <==> Fault(buf, l, depthLimit, k, e, pos)
  {
    hide Parse, Step, Last, Decode, Fault;
    DecodeIs(buf, depthLimit, tokenLimit);
    ParseStrings(buf, EMPTY_MACHINE, depthLimit, tokenLimit);
    var (l, k) := Stop(buf, depthLimit, tokenLimit);
    StepFault(buf, l, depthLimit, k, e, pos);
    StepErr(buf, l, depthLimit, k);
  }

  lemma {:induction false} LastSpelled(buf: Bytes, m: Machine, depthLimit: int, left: int)
    requires StackOk(m) && m.start <= |buf| && Spelled(buf, m.tokens, m.start)
    ensures var (l, _) := Last(buf, m, depthLimit, left); Spelled(buf, l.tokens, l.start)
    decreases |buf| - m.start
  {
    hide Step, Spelled;
    StepProgress(buf, m, depthLimit, left);
    var r := Step(buf, m, depthLimit, left);
    if !(r.Fail? || r.m.stack == []) {
      StepSpelled(buf, m, depthLimit, left);
      LastSpelled(buf, r.m, depthLimit, left - 1);
    }
  }

  lemma StepAdds(buf: Bytes, m: Machine, depthLimit: int, left: int)
    requires StackOk(m) && m.start <= |buf|
    ensures var r := Step(buf, m, depthLimit, left); r.Fail? ==> Continues(m.tokens, r.m.tokens, m.start)
    ensures var r := Step(buf, m, depthLimit, left);
      if PrefixFails(buf, m, depthLimit, left) then r.Fail? && r.m.start == r.pos && r.m.tokens == m.tokens
      else r.Fail? ==> r.m.start == m.start
  {
    hide CheckInteger, StringHead;
  }

  /** After an error the tokens still spell the text up to the item where the parser stopped;
      all that follow were added there, to close what was open: at the item, or behind the
      part of a string's prefix that was passed. */
  lemma FailedText(buf: Bytes, depthLimit: int, tokenLimit: int)
    requires |buf| <= MAX_OFFSET && Decode(buf, depthLimit, tokenLimit).err != NoError
    ensures var r := Decode(buf, depthLimit, tokenLimit); var (l, k) := Stop(buf, depthLimit, tokenLimit);
      && Spelled(buf, l.tokens, l.start)
      && Continues(l.tokens, r.tokens, if Cut(buf, depthLimit, tokenLimit) then r.pos else l.start)
  {
    hide Step, Parse, Last, Unwind, Spelled, PrefixFails;
    var (l, k) := Stop(buf, depthLimit, tokenLimit);
    DecodeIs(buf, depthLimit, tokenLimit);
    LastSpelled(buf, EMPTY_MACHINE, depthLimit, tokenLimit) by { EmptySpelled(buf); }
    ParseStrings(buf, EMPTY_MACHINE, depthLimit, tokenLimit);
    StepAdds(buf, l, depthLimit, k);
    var m := Parse(buf, EMPTY_MACHINE, depthLimit, tokenLimit).m;
    ParseStackOk(buf, EMPTY_MACHINE, depthLimit, tokenLimit);
    EmptyStop(depthLimit, tokenLimit);
    UnwindContinues(m);
    UnwindStart(m);
  }

  lemma EmptySpelled(buf: Bytes)
    ensures Spelled(buf, [], 0)
  {}

  lemma {:induction false} UnwindContinues(m: Machine)
    requires StackOk(m)
    ensures Continues(m.tokens, Unwind(m).tokens, m.start)
    decreases |m.stack|
  {
    if m.stack != [] {
      CloseSame(m);
      UnwindContinues(CloseTop(m));
    }
  }

  // ------------------------------------------------------------------- the numbers

  /** The value of an integer token is the number its digits write, with its sign, and
      zero when that does not fit in 64 bits. */
  lemma IntegerValue(buf: Bytes, ts: seq<Token>, i: nat)
    requires i + 1 < |ts| && ts[i].kind == IntegerToken && Spans(buf, ts[i], ts[i + 1].offset)
    ensures var at := ts[i].offset + 1; var first, end := Unsigned(buf, at), ts[i + 1].offset - 1;
      && AllDigits(buf, first, end)
      && var n: int := Number(buf, first, end);
      && ts[i].offset + 3 <= ts[i + 1].offset <= |buf|
      && IntAt(ts, buf, i) == if n > INT64_MAX then 0 else if first > at then -n else n
  {
    hide Number;
    var at := ts[i].offset + 1;
    var first, end := Unsigned(buf, at), ts[i + 1].offset;
    assert Number(buf, first, first) == 0 by { NumberNone(buf, first); }
    ParseIntText(buf, first, first, end, END, 0);
    var (stop, _, e) := ParseInt(buf, first, end, END, 0);
    if stop < end - 1 {
      DigitsFurther(buf, first, stop, end - 1);
    }
  }

  lemma NumberNone(buf: Bytes, at: nat)
    requires at <= |buf|
    ensures Number(buf, at, at) == 0
  {}
}
