/** The bencode parser: one pass over the buffer, an explicit stack of open
    containers, and a flat array of tokens with relative links. */
module Bdecode {
  import opened Bencode

  datatype Kind = DictToken | ListToken | StringToken | IntegerToken | EndToken

  /** `next` leads from an item to the item after it, relative to its own index;
      `header` is the length of a string's length prefix, less two. */
  datatype Token = Token(offset: nat, kind: Kind, next: nat, header: nat)

  const MAX_OFFSET := 0x1fff_ffff
  const MAX_NEXT_ITEM := 0x1fff_ffff
  const MAX_HEADER := 7

  datatype Error =
    | NoError | ExpectedDigit | ExpectedColon | UnexpectedEof | ExpectedValue | DepthExceeded | LimitExceeded | Overflow

  // ------------------------------------------------------------------- numbers

  /** parse_int: reads digits up to the delimiter into a 64-bit number. */
  function ParseInt(buf: Bytes, at: nat, end: nat, delimiter: Byte, val: int): (r: (nat, int, Error))
    requires at <= end <= |buf|
    ensures at <= r.0 <= end
    ensures 0 <= val <= INT64_MAX ==> 0 <= r.1 <= INT64_MAX
    decreases end - at
  {
    if at == end || buf[at] == delimiter then (at, val, NoError)
    else if !Numeric(buf[at]) then (at, val, ExpectedDigit)
    else if val > INT64_MAX / 10 then (at, val, Overflow)
    else if val * 10 > INT64_MAX - (buf[at] - ZERO) then (at, val * 10, Overflow)
    else ParseInt(buf, at + 1, end, delimiter, val * 10 + (buf[at] - ZERO))
  }

  method ReadInt(buf: Bytes, at: nat, end: nat, delimiter: Byte, val: int) returns (start: nat, v: int, e: Error)
    requires at <= end <= |buf|
    ensures (start, v, e) == ParseInt(buf, at, end, delimiter, val)
  {
    start, v, e := at, val, NoError;
    while start < end && buf[start] != delimiter
      invariant at <= start <= end
      invariant ParseInt(buf, at, end, delimiter, val) == ParseInt(buf, start, end, delimiter, v)
    {
      if !Numeric(buf[start]) { return start, v, ExpectedDigit; }
      if v > INT64_MAX / 10 { return start, v, Overflow; }
      v := v * 10;
      var digit := buf[start] - ZERO;
      if v > INT64_MAX - digit { return start, v, Overflow; }
      v := v + digit;
      start := start + 1;
    }
  }

  /** The loop of check_integer, from digit number `digits` on. */
  function CheckDigits(buf: Bytes, at: nat, digits: nat): (r: (nat, nat, Error))
    requires at < |buf|
    ensures at <= r.0 <= |buf| && (r.2 == NoError ==> at < r.0 < |buf| && buf[r.0] == END)
    decreases |buf| - at
  {
    if !Numeric(buf[at]) then (at, digits, ExpectedDigit)
    else if at + 1 == |buf| then (at + 1, digits + 1, UnexpectedEof)
    else if buf[at + 1] == END then (at + 1, digits + 1, NoError)
    else CheckDigits(buf, at + 1, digits + 1)
  }

  /** check_integer: an optional sign, digits and a terminator; more than twenty digits
      are an overflow whatever else is wrong. */
  function CheckInteger(buf: Bytes, at: nat): (r: (nat, Error))
    requires at <= |buf|
    ensures at <= r.0 <= |buf| && (r.1 == NoError ==> at < r.0 < |buf| && buf[r.0] == END)
  {
    if at == |buf| then (at, UnexpectedEof)
    else
      var first := if buf[at] == MINUS then at + 1 else at;
      if first == |buf| then (first, UnexpectedEof)
      else
        var (end, digits, e) := CheckDigits(buf, first, 0);
        (end, if digits > 20 then Overflow else e)
  }

  /** What comes of reading the number that starts at `from`: the reading stops behind the
      digits, at the delimiter or at `end`, unless they write a number above 64 bits. */
  predicate NumberRead(buf: Bytes, from: nat, end: nat, delimiter: Byte, stop: nat, v: int, e: Error) {
    && from <= stop <= end <= |buf| && AllDigits(buf, from, stop) && Number(buf, from, stop) <= INT64_MAX
    && match e
       case NoError => (stop == end || buf[stop] == delimiter) && v == Number(buf, from, stop)
       case ExpectedDigit => stop < end && !Numeric(buf[stop]) && buf[stop] != delimiter
       case Overflow => stop < end && Numeric(buf[stop]) && Number(buf, from, stop + 1) > INT64_MAX
       case _ => false
  }

  lemma {:induction false} ParseIntText(buf: Bytes, from: nat, at: nat, end: nat, delimiter: Byte, val: int)
    requires at <= end <= |buf| && AllDigits(buf, from, at) && val == Number(buf, from, at) <= INT64_MAX && !Numeric(delimiter)
    ensures var (stop, v, e) := ParseInt(buf, at, end, delimiter, val); NumberRead(buf, from, end, delimiter, stop, v, e)
    decreases end - at
  {
    if at < end && Numeric(buf[at]) {
      assert Number(buf, from, at + 1) == 10 * val + (buf[at] - ZERO);
      if Number(buf, from, at + 1) <= INT64_MAX { ParseIntText(buf, from, at + 1, end, delimiter, val * 10 + (buf[at] - ZERO)); }
    }
  }

  function Unsigned(buf: Bytes, at: nat): nat { if at < |buf| && buf[at] == MINUS then at + 1 else at }

  /** An optional sign and one to twenty digits, with the terminator behind them. */
  predicate IntegerText(buf: Bytes, at: nat, end: nat) {
    var first := Unsigned(buf, at);
    first < end <= first + 20 && AllDigits(buf, first, end) && end < |buf| && buf[end] == END
  }

  /** What the scan of an integer at `at` finds: it stops at the first byte that is not a
      digit, and that byte must be the terminator with at least one digit before it. */
  predicate IntegerScan(buf: Bytes, at: nat, stop: nat, e: Error) {
    var first := Unsigned(buf, at);
    && at <= first <= stop <= |buf| && AllDigits(buf, first, stop) && (stop < |buf| ==> !Numeric(buf[stop]))
    && (e == NoError <==> IntegerText(buf, at, stop))
    && (e == Overflow <==> stop - first > 20)
    && (e == UnexpectedEof <==> stop == |buf| && stop - first <= 20)
    && (e == ExpectedDigit <==> stop < |buf| && stop - first <= 20 && (buf[stop] == END ==> stop == first))
    && (e == NoError || e == Overflow || e == UnexpectedEof || e == ExpectedDigit)
  }

  lemma {:induction false} CheckDigitsText(buf: Bytes, first: nat, at: nat)
    requires at < |buf| && AllDigits(buf, first, at) && (at > first ==> buf[at] != END)
    ensures var (stop, digits, e) := CheckDigits(buf, at, at - first);
      && at <= stop <= |buf| && digits == stop - first && AllDigits(buf, first, stop) && (stop < |buf| ==> !Numeric(buf[stop]))
      && (e == NoError <==> first < stop < |buf| && buf[stop] == END)
      && (e == UnexpectedEof <==> stop == |buf|)
      && (e == ExpectedDigit <==> stop < |buf| && (buf[stop] == END ==> stop == first))
    decreases |buf| - at
  {
    if Numeric(buf[at]) && at + 1 < |buf| && buf[at + 1] != END { CheckDigitsText(buf, first, at + 1); }
  }

  lemma CheckIntegerText(buf: Bytes, at: nat)
    requires at <= |buf|
    ensures IntegerScan(buf, at, CheckInteger(buf, at).0, CheckInteger(buf, at).1)
  {
    hide CheckDigits;
    var first := Unsigned(buf, at);
    if first < |buf| { CheckDigitsText(buf, first, first); }
  }

  method ScanInteger(buf: Bytes, at: nat) returns (start: nat, e: Error)
    requires at <= |buf|
    ensures (start, e) == CheckInteger(buf, at) && IntegerScan(buf, at, start, e)
  {
    hide IntegerScan;
    CheckIntegerText(buf, at);
    start, e := at, NoError;
    if start == |buf| { return start, UnexpectedEof; }
    if buf[start] == MINUS {
      start := start + 1;
      if start == |buf| { return start, UnexpectedEof; }
    }
    var digits := 0;
    ghost var first := start;
    var more := true;
    while more
      invariant first <= start <= |buf|
      invariant more ==> start < |buf| && e == NoError && CheckDigits(buf, first, 0) == CheckDigits(buf, start, digits)
      invariant !more ==> CheckDigits(buf, first, 0) == (start, digits, e)
      decreases |buf| - start, more
    {
      if !Numeric(buf[start]) {
        e := ExpectedDigit;
        more := false;
      } else {
        start := start + 1;
        digits := digits + 1;
        if start == |buf| {
          e := UnexpectedEof;
          more := false;
        } else {
          more := buf[start] != END;
        }
      }
    }
    if digits > 20 { e := Overflow; }
  }

  // ------------------------------------------------------------------ one item

  /** An open container, and for a dictionary whether its value is due. */
  datatype Frame = Frame(token: nat, value: bool)

  datatype Machine = Machine(start: nat, tokens: seq<Token>, stack: seq<Frame>)

  /** `pos` is the position reported with the error. */
  datatype Outcome = Go(m: Machine) | Fail(m: Machine, err: Error, pos: nat)

  predicate StackOk(m: Machine) { forall i :: 0 <= i < |m.stack| ==> m.stack[i].token < |m.tokens| }

  predicate InDict(m: Machine)
    requires StackOk(m)
  {
    m.stack != [] && m.tokens[m.stack[|m.stack| - 1].token].kind == DictToken
  }

  /** The item just parsed was a key or a value of the innermost dictionary. */
  function Toggled(m: Machine): Machine
    requires StackOk(m)
  {
    if InDict(m) then
      var n := |m.stack| - 1;
      m.(stack := m.stack[n := m.stack[n].(value := !m.stack[n].value)])
    else m
  }

  function Open(m: Machine, kind: Kind): Machine
    requires StackOk(m)
  {
    var t := Toggled(m);
    Machine(m.start + 1, m.tokens + [Token(m.start, kind, 0, 0)], t.stack + [Frame(|m.tokens|, false)])
  }

  function ParseInteger(buf: Bytes, m: Machine): Outcome
    requires StackOk(m) && m.start < |buf|
  {
    var (end, e) := CheckInteger(buf, m.start + 1);
    if e != NoError then Fail(m, e, end)
    else Go(Toggled(m).(start := end + 1, tokens := m.tokens + [Token(m.start, IntegerToken, 1, 0)]))
  }

  /** The end of a container: an end token, and the link over the container. */
  function ParseEnd(m: Machine): Outcome
    requires StackOk(m)
  {
    if m.stack == [] then Fail(m, UnexpectedEof, m.start)
    else if InDict(m) && m.stack[|m.stack| - 1].value then Fail(m, ExpectedValue, m.start)
    else
      var top := m.stack[|m.stack| - 1].token;
      var ts := m.tokens + [Token(m.start, EndToken, 1, 0)];
      if |ts| - top > MAX_NEXT_ITEM then Fail(m.(tokens := ts), LimitExceeded, m.start)
      else Go(Machine(m.start + 1, ts[top := ts[top].(next := |ts| - top)], m.stack[..|m.stack| - 1]))
  }

  /** The length prefix of a string: where it ends, and the length. */
  function StringHead(buf: Bytes, start: nat): (r: (nat, int, Error))
    requires start < |buf| && Numeric(buf[start])
    ensures start < r.0 <= |buf| && (r.2 == NoError ==> start + 2 <= r.0 < |buf| && 0 <= r.1 <= |buf| - r.0)
  {
    var first := start + 1;
    if first == |buf| then (first, 0, UnexpectedEof)
    else
      var (at, len, e) := ParseInt(buf, first, |buf|, COLON, buf[start] - ZERO);
      if e != NoError then (at, len, e)
      else if at == |buf| then (at, len, ExpectedColon)
      else if len > |buf| - at - 1 then (at, len, UnexpectedEof)
      else if at + 1 == |buf| then (at + 1, len, UnexpectedEof)
      else if at + 1 - start - 2 > MAX_HEADER then (at + 1, len, LimitExceeded)
      else (at + 1, len, NoError)
  }

  /** What comes of the length prefix of the string at `start`. */
  predicate PrefixRead(buf: Bytes, start: nat, at: nat, len: int, e: Error) {
    if e == NoError then start < at && PrefixText(buf, start, at - 1) && at - start - 2 <= MAX_HEADER && len == Number(buf, start, at - 1)
    else PrefixFault(buf, start, at, e)
  }

  /** What is wrong with the length prefix, and where. */
  predicate PrefixFault(buf: Bytes, start: nat, at: nat, e: Error) {
    match e
    case LimitExceeded => start < at && PrefixText(buf, start, at - 1) && at - start - 2 > MAX_HEADER
    case Overflow => start < at && AllDigits(buf, start, at + 1) && Number(buf, start, at) <= INT64_MAX < Number(buf, start, at + 1)
    case ExpectedDigit => Length(buf, start, at) && at < |buf| && !Numeric(buf[at]) && buf[at] != COLON
    case ExpectedColon => Length(buf, start, at) && start + 1 < at == |buf|
    case UnexpectedEof =>
      || start + 1 == at == |buf|
      || (Length(buf, start, at) && at < |buf| && buf[at] == COLON && Number(buf, start, at) > |buf| - at - 1)
      || (at == |buf| && at > start + 1 && Length(buf, start, at - 1) && buf[at - 1] == COLON && Number(buf, start, at - 1) == 0)
    case _ => false
  }

  /** A length of 64 bits in decimal. */
  predicate Length(buf: Bytes, start: nat, end: nat) {
    start < end && AllDigits(buf, start, end) && Number(buf, start, end) <= INT64_MAX
  }

  /** A length, a colon, and behind it that many bytes and at least one. */
  predicate PrefixText(buf: Bytes, start: nat, colon: nat) {
    && start < colon < |buf| - 1 && Length(buf, start, colon) && buf[colon] == COLON
    && Number(buf, start, colon) <= |buf| - colon - 1
  }

  lemma StringHeadText(buf: Bytes, start: nat)
    requires start < |buf| && Numeric(buf[start])
    ensures var (at, len, e) := StringHead(buf, start); PrefixRead(buf, start, at, len, e)
  {
    hide ParseInt;
    assert Number(buf, start, start) == 0 && Number(buf, start, start + 1) == buf[start] - ZERO;
    if start + 1 < |buf| { ParseIntText(buf, start, start + 1, |buf|, COLON, buf[start] - ZERO); }
  }

  method ScanString(buf: Bytes, start: nat) returns (at: nat, len: int, e: Error)
    requires start < |buf| && Numeric(buf[start])
    ensures (at, len, e) == StringHead(buf, start) && PrefixRead(buf, start, at, len, e)
  {
    hide PrefixRead;
    StringHeadText(buf, start);
    at, len := start + 1, 0;
    if at >= |buf| { return at, len, UnexpectedEof; }
    at, len, e := ReadInt(buf, at, |buf|, COLON, buf[start] - ZERO);
    if e != NoError { return at, len, e; }
    if at == |buf| { return at, len, ExpectedColon; }
    if len > |buf| - at - 1 { return at, len, UnexpectedEof; }
    at := at + 1;
    if at >= |buf| { return at, len, UnexpectedEof; }
    if at - start - 2 > MAX_HEADER { return at, len, LimitExceeded; }
  }

  function ParseString(buf: Bytes, m: Machine): Outcome
    requires StackOk(m) && m.start < |buf| && Numeric(buf[m.start])
  {
    var (at, len, e) := StringHead(buf, m.start);
    if e != NoError then Fail(m.(start := at), e, at)
    else Go(Toggled(m).(start := at + len, tokens := m.tokens + [Token(m.start, StringToken, 1, at - m.start - 2)]))
  }

  /** One round of the parser. `left` is what is left of the token limit. */
  function Step(buf: Bytes, m: Machine, depthLimit: int, left: int): (r: Outcome)
    requires StackOk(m) && m.start <= |buf|
  {
    if m.start == |buf| then Fail(m, UnexpectedEof, m.start)
    else if |m.stack| >= depthLimit then Fail(m, DepthExceeded, m.start)
    else if left <= 0 then Fail(m, LimitExceeded, m.start)
    else
      var t := buf[m.start];
      if InDict(m) && !m.stack[|m.stack| - 1].value && !Numeric(t) && t != END then Fail(m, ExpectedDigit, m.start)
      else if t == DICT then Go(Open(m, DictToken))
      else if t == LIST then Go(Open(m, ListToken))
      else if t == INT then ParseInteger(buf, m)
      else if t == END then ParseEnd(m)
      else if !Numeric(t) then Fail(m, ExpectedValue, m.start)
      else ParseString(buf, m)
  }

  lemma StepProgress(buf: Bytes, m: Machine, depthLimit: int, left: int)
    requires StackOk(m) && m.start <= |buf|
    ensures var r := Step(buf, m, depthLimit, left);
      StackOk(r.m) && m.start <= r.m.start <= |buf| && (r.Go? ==> m.start < r.m.start && |r.m.tokens| == |m.tokens| + 1)
  {}

  /** The whole loop: it ends with the top-level item. */
  function Parse(buf: Bytes, m: Machine, depthLimit: int, left: int): Outcome
    requires StackOk(m) && m.start <= |buf|
    decreases |buf| - m.start
  {
    StepProgress(buf, m, depthLimit, left);
    var r := Step(buf, m, depthLimit, left);
    if r.Fail? || r.m.stack == [] then r else Parse(buf, r.m, depthLimit, left - 1)
  }

  // ------------------------------------------------------------ closing the tree

  /** Ends the containers that are still open, innermost first. A key without a value
      gets an empty dictionary. */
  function Unwind(m: Machine): Machine
    requires StackOk(m)
    decreases |m.stack|
  {
    if m.stack == [] then m else Unwind(CloseTop(m))
  }

  function CloseTop(m: Machine): (r: Machine)
    requires StackOk(m) && m.stack != []
    ensures StackOk(r) && |r.stack| == |m.stack| - 1
  {
    var n := |m.stack| - 1;
    var ts := if InDict(m) && m.stack[n].value
              then m.tokens + [Token(m.start, DictToken, 2, 0), Token(m.start, EndToken, 0, 0)]
              else m.tokens;
    var top := m.stack[n].token;
    Machine(m.start, ts[top := ts[top].(next := |ts| - top)] + [Token(m.start, EndToken, 1, 0)], m.stack[..n])
  }

  const EMPTY_MACHINE := Machine(0, [], [])

  /** What bdecode leaves behind: the tokens, the error and where it was found. */
  datatype Result = Result(tokens: seq<Token>, err: Error, pos: nat)

  function Decode(buf: Bytes, depthLimit: int, tokenLimit: int): Result {
    if |buf| > MAX_OFFSET then Result([], LimitExceeded, 0)
    else
      var r := if buf == [] then Fail(EMPTY_MACHINE, UnexpectedEof, 0) else Parse(buf, EMPTY_MACHINE, depthLimit, tokenLimit);
      ParseStackOk(buf, EMPTY_MACHINE, depthLimit, tokenLimit);
      var m := Unwind(r.m);
      Result(m.tokens + [Token(m.start, EndToken, 0, 0)], if r.Fail? then r.err else NoError, if r.Fail? then r.pos else m.start)
  }

  lemma {:induction false} ParseStackOk(buf: Bytes, m: Machine, depthLimit: int, left: int)
    requires StackOk(m) && m.start <= |buf|
    ensures var r := Parse(buf, m, depthLimit, left); StackOk(r.m) && m.start <= r.m.start <= |buf| && (r.Go? ==> r.m.stack == [])
    decreases |buf| - m.start
  {
    StepProgress(buf, m, depthLimit, left);
    var r := Step(buf, m, depthLimit, left);
    hide Step;
    if !(r.Fail? || r.m.stack == []) { ParseStackOk(buf, r.m, depthLimit, left - 1); }
  }

  // ------------------------------------------------------------------- the loop

  function OutcomeOf(m: Machine, err: Error, pos: nat): Outcome { if err == NoError then Go(m) else Fail(m, err, pos) }

  /** One round of the loop of bdecode; `err` is what it fails with. */
  method ParseItem(buf: Bytes, start: nat, tokens: seq<Token>, stack: array<Frame>, sp: nat, left: int)
    returns (start': nat, tokens': seq<Token>, sp': nat, err: Error, pos: nat)
    requires sp <= stack.Length && start <= |buf| && StackOk(Machine(start, tokens, stack[..sp]))
    modifies stack
    ensures sp' <= stack.Length
    ensures OutcomeOf(Machine(start', tokens', stack[..sp']), err, pos) ==
            Step(buf, Machine(start, tokens, old(stack[..sp])), stack.Length, left)
    ensures err == NoError ==> pos == 0
  {
    hide StringHead, CheckInteger, IntegerScan, PrefixRead;
    ghost var m := Machine(start, tokens, stack[..sp]);
    start', tokens', sp', err, pos := start, tokens, sp, NoError, 0;
    if start >= |buf| { return start, tokens, sp, UnexpectedEof, start; }
    if sp >= stack.Length { return start, tokens, sp, DepthExceeded, start; }
    if left - 1 < 0 { return start, tokens, sp, LimitExceeded, start; }
    var t := buf[start];
    var inDict := sp > 0 && tokens[stack[sp - 1].token].kind == DictToken;
    if inDict && !stack[sp - 1].value && !Numeric(t) && t != END { return start, tokens, sp, ExpectedDigit, start; }
    if t == DICT || t == LIST {
      stack[sp] := Frame(|tokens|, false);
      sp' := sp + 1;
      tokens' := tokens + [Token(start, if t == DICT then DictToken else ListToken, 0, 0)];
      start' := start + 1;
    } else if t == INT {
      var end, e := ScanInteger(buf, start + 1);
      if e != NoError { return start, tokens, sp, e, end; }
      tokens' := tokens + [Token(start, IntegerToken, 1, 0)];
      start' := end + 1;
    } else if t == END {
      if sp == 0 { return start, tokens, sp, UnexpectedEof, start; }
      if inDict && stack[sp - 1].value { return start, tokens, sp, ExpectedValue, start; }
      tokens' := tokens + [Token(start, EndToken, 1, 0)];
      var top := stack[sp - 1].token;
      if |tokens'| - top > MAX_NEXT_ITEM { return start, tokens', sp, LimitExceeded, start; }
      tokens' := tokens'[top := tokens'[top].(next := |tokens'| - top)];
      sp' := sp - 1;
      start' := start + 1;
    } else {
      if !Numeric(t) { return start, tokens, sp, ExpectedValue, start; }
      var at, len, e := ScanString(buf, start);
      if e != NoError { return at, tokens, sp, e, at; }
      tokens' := tokens + [Token(start, StringToken, 1, at - start - 2)];
      start' := at + len;
    }
    if inDict { stack[sp - 1] := Frame(stack[sp - 1].token, !stack[sp - 1].value); }
    assert stack[..sp'] == Step(buf, m, stack.Length, left).m.stack;
  }

  /** The loop of bdecode. */
  method ParseAll(buf: Bytes, stack: array<Frame>, tokenLimit: int) returns (start: nat, tokens: seq<Token>, sp: nat, err: Error, pos: nat)
    requires buf != []
    modifies stack
    ensures sp <= stack.Length
    ensures OutcomeOf(Machine(start, tokens, stack[..sp]), err, pos) == Parse(buf, EMPTY_MACHINE, stack.Length, tokenLimit)
  {
    hide Step;
    start, tokens, sp, err, pos := 0, [], 0, NoError, 0;
    var left := tokenLimit;
    assert Machine(start, tokens, stack[..sp]) == EMPTY_MACHINE;
    while true
      invariant sp <= stack.Length && start <= |buf| && StackOk(Machine(start, tokens, stack[..sp]))
      invariant Parse(buf, Machine(start, tokens, stack[..sp]), stack.Length, left) == Parse(buf, EMPTY_MACHINE, stack.Length, tokenLimit)
      decreases |buf| - start
    {
      StepProgress(buf, Machine(start, tokens, stack[..sp]), stack.Length, left);
      start, tokens, sp, err, pos := ParseItem(buf, start, tokens, stack, sp, left);
      left := left - 1;
      if err != NoError || sp == 0 { return; }
    }
  }

  /** The unwinding at the end of bdecode. */
  method CloseAll(stack: array<Frame>, open: nat, start: nat, before: seq<Token>) returns (tokens: seq<Token>)
    requires open <= stack.Length && StackOk(Machine(start, before, stack[..open]))
    ensures tokens == Unwind(Machine(start, before, stack[..open])).tokens
  {
    var sp := open;
    tokens := before;
    while sp > 0
      invariant 0 <= sp <= open && StackOk(Machine(start, tokens, stack[..sp]))
      invariant Unwind(Machine(start, tokens, stack[..sp])) == Unwind(Machine(start, before, stack[..open]))
    {
      assert stack[..sp][..sp - 1] == stack[..sp - 1];
      sp := sp - 1;
      if tokens[stack[sp].token].kind == DictToken && stack[sp].value {
        tokens := tokens + [Token(start, DictToken, 2, 0), Token(start, EndToken, 0, 0)];
      }
      var top := stack[sp].token;
      tokens := tokens[top := tokens[top].(next := |tokens| - top)] + [Token(start, EndToken, 1, 0)];
    }
  }

  lemma {:induction false} UnwindStart(m: Machine)
    requires StackOk(m)
    ensures Unwind(m).start == m.start
    decreases |m.stack|
  {
    if m.stack != [] { UnwindStart(CloseTop(m)); }
  }

  /** bdecode. */
  method Bdecode(buf: Bytes, depthLimit: nat, tokenLimit: int) returns (tokens: seq<Token>, err: Error, pos: nat)
    ensures Result(tokens, err, pos) == Decode(buf, depthLimit, tokenLimit)
  {
    hide Parse, Unwind;
    if |buf| > MAX_OFFSET { return [], LimitExceeded, 0; }
    var stack := new Frame[depthLimit](_ => Frame(0, false));
    var start, sp: nat := 0, 0;
    ParseStackOk(buf, EMPTY_MACHINE, depthLimit, tokenLimit);
    if buf == [] {
      tokens, err, pos := [], UnexpectedEof, 0;
      assert Machine(start, tokens, stack[..sp]) == EMPTY_MACHINE;
    } else {
      start, tokens, sp, err, pos := ParseAll(buf, stack, tokenLimit);
    }
    UnwindStart(Machine(start, tokens, stack[..sp]));
    tokens := CloseAll(stack, sp, start, tokens);
    tokens := tokens + [Token(start, EndToken, 0, 0)];
    if err == NoError { pos := start; }
  }
}
