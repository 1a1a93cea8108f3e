/** Whatever the input and the limits, bdecode leaves a well-formed token tree. */
module BdecodeTree {
  import opened Bencode
  import opened Bdecode

  predicate Container(t: Token) { t.kind == DictToken || t.kind == ListToken }

  /** Walking by `next` from index `i` stays in the array and stops at an end token; in
      a dictionary keys are strings, and it does not stop between a key and its value. */
  predicate Walks(ts: seq<Token>, i: nat, dict: bool, key: bool)
    decreases |ts| - i
  {
    i < |ts| &&
    if ts[i].kind == EndToken then dict ==> key
    else ts[i].next > 0 && (dict && key ==> ts[i].kind == StringToken) && Walks(ts, i + ts[i].next, dict, !key)
  }

  /** The bytes an item takes up at least. */
  function Extent(t: Token): nat {
    match t.kind
    case StringToken => t.header + 2
    case IntegerToken => 3
    case _ => 0
  }

  /** Items lie in the buffer in order, each after the one before it. */
  predicate Offsets(ts: seq<Token>, start: nat) {
    forall i :: 0 <= i < |ts| ==> ts[i].offset + Extent(ts[i]) <= NextOffset(ts, i, start)
  }

  function NextOffset(ts: seq<Token>, i: nat, start: nat): nat { if i + 1 < |ts| then ts[i + 1].offset else start }

  predicate LinksInside(ts: seq<Token>) { forall i :: 0 <= i < |ts| ==> i + ts[i].next < |ts| }

  predicate Tree(ts: seq<Token>, size: nat) {
    && ts != [] && ts[|ts| - 1].kind == EndToken
    && Offsets(ts, size)
    && LinksInside(ts)
    && forall i :: 0 <= i < |ts| && Container(ts[i]) ==> Walks(ts, i + 1, ts[i].kind == DictToken, true)
  }

  // ------------------------------------------------------------ while it is built

  /** Walking from `i` reaches exactly `j`; in a dictionary `end` tells whether a key is
      due there. */
  predicate Chain(ts: seq<Token>, i: nat, j: nat, dict: bool, key: bool, end: bool)
    decreases |ts| - i
  {
    i <= j <= |ts| &&
    if i == j then dict ==> key == end
    else ts[i].kind != EndToken && ts[i].next > 0 && (dict && key ==> ts[i].kind == StringToken)
         && Chain(ts, i + ts[i].next, j, dict, !key, end)
  }

  lemma {:induction false} ChainFrame(ts: seq<Token>, us: seq<Token>, i: nat, j: nat, dict: bool, key: bool, end: bool)
    requires Chain(ts, i, j, dict, key, end) && j <= |us| && forall x :: i <= x < j ==> us[x] == ts[x]
    ensures Chain(us, i, j, dict, key, end)
    decreases j - i
  {
    if i < j { ChainFrame(ts, us, i + ts[i].next, j, dict, !key, end); }
  }

  lemma {:induction false} ChainSnoc(ts: seq<Token>, i: nat, j: nat, dict: bool, key: bool, end: bool)
    requires Chain(ts, i, j, dict, key, end) && j < |ts| && ts[j].kind != EndToken && ts[j].next > 0 && j + ts[j].next <= |ts|
    requires dict && end ==> ts[j].kind == StringToken
    ensures Chain(ts, i, j + ts[j].next, dict, key, !end)
    decreases j - i
  {
    if i < j { ChainSnoc(ts, i + ts[i].next, j, dict, !key, end); }
  }

  lemma {:induction false} ChainWalks(ts: seq<Token>, i: nat, j: nat, dict: bool, key: bool, end: bool)
    requires Chain(ts, i, j, dict, key, end) && (forall k :: !dict || k == end ==> Walks(ts, j, dict, k))
    ensures Walks(ts, i, dict, key)
    decreases j - i
  {
    if i < j { ChainWalks(ts, i + ts[i].next, j, dict, !key, end); }
  }

  /** Finished tokens did not change. */
  predicate Extends(ts: seq<Token>, us: seq<Token>) {
    |us| >= |ts| && forall x :: 0 <= x < |ts| && (ts[x].kind == EndToken || ts[x].next > 0) ==> us[x] == ts[x]
  }

  lemma {:induction false} WalksFrame(ts: seq<Token>, us: seq<Token>, i: nat, dict: bool, key: bool)
    requires Walks(ts, i, dict, key) && Extends(ts, us)
    ensures Walks(us, i, dict, key)
    decreases |ts| - i
  {
    if ts[i].kind != EndToken { WalksFrame(ts, us, i + ts[i].next, dict, !key); }
  }

  /** Open containers are on the stack, with no link yet; a container inside a
      dictionary stands in the place of a value. */
  predicate StackShape(ts: seq<Token>, stack: seq<Frame>) {
    && (forall k :: 0 <= k < |stack| ==> stack[k].token < |ts| && Container(ts[stack[k].token]) && ts[stack[k].token].next == 0)
    && (forall k, l :: 0 <= k < l < |stack| ==> stack[k].token < stack[l].token)
    && (forall k :: 0 <= k < |stack| - 1 && ts[stack[k].token].kind == DictToken ==> !stack[k].value)
  }

  predicate FrameChain(ts: seq<Token>, stack: seq<Frame>, k: nat)
    requires k < |stack| && stack[k].token < |ts|
  {
    Chain(ts, stack[k].token + 1, if k + 1 < |stack| then stack[k + 1].token else |ts|,
          ts[stack[k].token].kind == DictToken, true, if k + 1 < |stack| then false else !stack[k].value)
  }

  predicate Links(ts: seq<Token>) {
    forall i :: 0 <= i < |ts| ==> i + ts[i].next <= |ts| && (!Container(ts[i]) && ts[i].kind != EndToken ==> ts[i].next > 0)
  }

  /** Containers are either open or closed by an end token. */
  predicate ClosedOk(ts: seq<Token>) {
    forall i :: 0 <= i < |ts| && Container(ts[i]) && ts[i].next > 0 ==> Walks(ts, i + 1, ts[i].kind == DictToken, true)
  }

  predicate OpenOnStack(ts: seq<Token>, stack: seq<Frame>) {
    forall i :: 0 <= i < |ts| && Container(ts[i]) && ts[i].next == 0 ==> exists k :: 0 <= k < |stack| && stack[k].token == i
  }

  predicate Shape(ts: seq<Token>, stack: seq<Frame>) {
    StackShape(ts, stack) && Links(ts) && ClosedOk(ts) && OpenOnStack(ts, stack)
  }

  predicate Building(buf: Bytes, m: Machine) {
    && m.start <= |buf| && |m.tokens| <= m.start
    && Shape(m.tokens, m.stack) && Offsets(m.tokens, m.start)
    && forall k :: 0 <= k < |m.stack| ==> FrameChain(m.tokens, m.stack, k)
  }

  lemma ClosedFrame(ts: seq<Token>, us: seq<Token>)
    requires ClosedOk(ts) && Extends(ts, us)
    ensures forall i :: 0 <= i < |ts| && Container(ts[i]) && ts[i].next > 0 ==> Walks(us, i + 1, us[i].kind == DictToken, true)
  {
    hide Walks;
    forall i | 0 <= i < |ts| && Container(ts[i]) && ts[i].next > 0 ensures Walks(us, i + 1, us[i].kind == DictToken, true) {
      WalksFrame(ts, us, i + 1, ts[i].kind == DictToken, true);
    }
  }

  lemma FramesSnoc(ts: seq<Token>, us: seq<Token>, stack: seq<Frame>, k: nat)
    requires k < |stack| - 1 && stack[k].token < stack[k + 1].token < |ts| && FrameChain(ts, stack, k)
    requires |us| >= |ts| && forall x :: 0 <= x < stack[k + 1].token ==> us[x] == ts[x]
    ensures FrameChain(us, stack, k)
  {
    ChainFrame(ts, us, stack[k].token + 1, stack[k + 1].token, ts[stack[k].token].kind == DictToken, true, false);
  }

  // ---------------------------------------------------- a leaf joins its container

  /** The stack after an item was added to the innermost container. */
  lemma LeafShape(m: Machine, t: Token, us: seq<Token>)
    requires StackOk(m) && Shape(m.tokens, m.stack) && us == m.tokens + [t]
    requires t.next == 1 && (t.kind == StringToken || t.kind == IntegerToken)
    ensures Shape(us, Toggled(m).stack)
  {
    hide StackShape, Links, ClosedOk, OpenOnStack;
    LeafStack(m, us);
    LeafLinks(m.tokens, t);
    LeafClosed(m.tokens, t);
    LeafOpen(m, t, us);
  }

  lemma LeafStack(m: Machine, us: seq<Token>)
    requires StackOk(m) && StackShape(m.tokens, m.stack) && |us| >= |m.tokens| && us[..|m.tokens|] == m.tokens
    ensures StackShape(us, Toggled(m).stack)
  {
    var ts := m.tokens;
    assert forall x :: 0 <= x < |ts| ==> us[x] == us[..|ts|][x];
  }

  lemma LeafLinks(ts: seq<Token>, t: Token)
    requires Links(ts) && t.next == 1 && !Container(t)
    ensures Links(ts + [t])
  {}

  lemma LeafClosed(ts: seq<Token>, t: Token)
    requires ClosedOk(ts) && (!Container(t) || t.next == 0)
    ensures ClosedOk(ts + [t])
  {
    hide Walks;
    ClosedFrame(ts, ts + [t]);
  }

  lemma LeafOpen(m: Machine, t: Token, us: seq<Token>)
    requires StackOk(m) && OpenOnStack(m.tokens, m.stack) && us == m.tokens + [t] && !Container(t)
    ensures OpenOnStack(us, Toggled(m).stack)
  {
    forall i | 0 <= i < |us| && Container(us[i]) && us[i].next == 0 ensures exists k :: 0 <= k < |Toggled(m).stack| && Toggled(m).stack[k].token == i {
      assert us[i] == m.tokens[i];
      var k :| 0 <= k < |m.stack| && m.stack[k].token == i;
      assert Toggled(m).stack[k].token == i;
    }
  }

  lemma LeafChains(m: Machine, t: Token, us: seq<Token>)
    requires StackOk(m) && StackShape(m.tokens, m.stack) && us == m.tokens + [t]
    requires t.next == 1 && (t.kind == StringToken || t.kind == IntegerToken)
    requires InDict(m) && !m.stack[|m.stack| - 1].value ==> t.kind == StringToken
    requires forall k :: 0 <= k < |m.stack| ==> FrameChain(m.tokens, m.stack, k)
    ensures StackOk(Machine(0, us, Toggled(m).stack))
    ensures forall k :: 0 <= k < |m.stack| ==> FrameChain(us, Toggled(m).stack, k)
  {
    hide Chain;
    var ts, stack := m.tokens, Toggled(m).stack;
    forall k | 0 <= k < |m.stack| ensures FrameChain(us, stack, k) {
      if k < |m.stack| - 1 {
        assert FrameChain(ts, m.stack, k);
        FramesSnoc(ts, us, m.stack, k);
      } else {
        var top := m.stack[k].token;
        assert FrameChain(ts, m.stack, k);
        ChainFrame(ts, us, top + 1, |ts|, InDict(m), true, !m.stack[k].value);
        ChainSnoc(us, top + 1, |ts|, InDict(m), true, !m.stack[k].value);
        ChainAny(us, top + 1, |us|, m.stack[k].value, !stack[k].value, InDict(m));
      }
    }
  }

  /** Outside dictionaries the place of keys does not matter. */
  lemma {:induction false} ChainAny(ts: seq<Token>, i: nat, j: nat, end: bool, end': bool, dict: bool)
    requires Chain(ts, i, j, dict, true, end) && (dict ==> end == end')
    ensures Chain(ts, i, j, dict, true, end')
  {
    ChainList(ts, i, j, dict, true, end, end');
  }

  lemma {:induction false} ChainList(ts: seq<Token>, i: nat, j: nat, dict: bool, key: bool, end: bool, end': bool)
    requires Chain(ts, i, j, dict, key, end) && (dict ==> end == end')
    ensures Chain(ts, i, j, dict, key, end')
    decreases j - i
  {
    if i < j { ChainList(ts, i + ts[i].next, j, dict, !key, end, end'); }
  }

  lemma LeafOffsets(ts: seq<Token>, start: nat, t: Token, end: nat)
    requires Offsets(ts, start) && t.offset == start && start + Extent(t) <= end
    ensures Offsets(ts + [t], end)
  {
    var us := ts + [t];
    forall i | 0 <= i < |us| ensures us[i].offset + Extent(us[i]) <= NextOffset(us, i, end) {
      if i < |ts| { assert ts[i].offset + Extent(ts[i]) <= NextOffset(ts, i, start); }
    }
  }

  lemma LeafKeeps(buf: Bytes, m: Machine, t: Token, end: nat)
    requires Building(buf, m) && StackOk(m) && t.offset == m.start && m.start + Extent(t) <= end <= |buf| && m.start < end
    requires t.next == 1 && (t.kind == StringToken || t.kind == IntegerToken)
    requires InDict(m) && !m.stack[|m.stack| - 1].value ==> t.kind == StringToken
    ensures Building(buf, Toggled(m).(start := end, tokens := m.tokens + [t]))
  {
    hide Shape, Offsets, FrameChain, Extent;
    LeafShape(m, t, m.tokens + [t]);
    ShapeStack(m);
    LeafChains(m, t, m.tokens + [t]);
    LeafOffsets(m.tokens, m.start, t, end);
  }

  lemma ShapeStack(m: Machine)
    requires Shape(m.tokens, m.stack)
    ensures StackShape(m.tokens, m.stack)
  {}

  // ------------------------------------------------------------ a container opens

  lemma OpenKeeps(buf: Bytes, m: Machine, kind: Kind)
    requires Building(buf, m) && StackOk(m) && m.start < |buf| && (kind == DictToken || kind == ListToken)
    requires InDict(m) ==> m.stack[|m.stack| - 1].value
    ensures Building(buf, Open(m, kind))
  {
    hide Shape, Offsets, FrameChain, Extent;
    ShapeStack(m);
    OpenShape(m, kind);
    OpenChains(m, kind);
    OpenOffsets(m.tokens, m.start, kind);
  }

  lemma OpenOffsets(ts: seq<Token>, start: nat, kind: Kind)
    requires Offsets(ts, start) && (kind == DictToken || kind == ListToken)
    ensures Offsets(ts + [Token(start, kind, 0, 0)], start + 1)
  {
    LeafOffsets(ts, start, Token(start, kind, 0, 0), start + 1);
  }

  lemma OpenShape(m: Machine, kind: Kind)
    requires StackOk(m) && Shape(m.tokens, m.stack) && (kind == DictToken || kind == ListToken)
    requires InDict(m) ==> m.stack[|m.stack| - 1].value
    ensures Shape(Open(m, kind).tokens, Open(m, kind).stack)
  {
    hide StackShape, Links, ClosedOk, OpenOnStack;
    OpenStack(m, kind);
    OpenLinks(m.tokens, Token(m.start, kind, 0, 0));
    LeafClosed(m.tokens, Token(m.start, kind, 0, 0));
    OpenOpen(m, kind);
  }

  lemma OpenStack(m: Machine, kind: Kind)
    requires StackOk(m) && StackShape(m.tokens, m.stack) && (kind == DictToken || kind == ListToken)
    requires InDict(m) ==> m.stack[|m.stack| - 1].value
    ensures StackShape(Open(m, kind).tokens, Open(m, kind).stack)
  {
    var us := Open(m, kind).tokens;
    LeafStack(m, us);
  }

  lemma OpenLinks(ts: seq<Token>, t: Token)
    requires Links(ts) && t.next == 0 && Container(t)
    ensures Links(ts + [t])
  {}

  lemma OpenOpen(m: Machine, kind: Kind)
    requires StackOk(m) && OpenOnStack(m.tokens, m.stack) && (kind == DictToken || kind == ListToken)
    ensures OpenOnStack(Open(m, kind).tokens, Open(m, kind).stack)
  {
    var ts, us, stack := m.tokens, Open(m, kind).tokens, Open(m, kind).stack;
    forall i | 0 <= i < |us| && Container(us[i]) && us[i].next == 0 ensures exists k :: 0 <= k < |stack| && stack[k].token == i {
      if i < |ts| {
        assert us[i] == ts[i];
        var k :| 0 <= k < |m.stack| && m.stack[k].token == i;
        assert stack[k].token == i;
      } else {
        assert stack[|stack| - 1].token == i;
      }
    }
  }

  lemma OpenChains(m: Machine, kind: Kind)
    requires StackOk(m) && StackShape(m.tokens, m.stack) && (kind == DictToken || kind == ListToken)
    requires InDict(m) ==> m.stack[|m.stack| - 1].value
    requires forall k :: 0 <= k < |m.stack| ==> FrameChain(m.tokens, m.stack, k)
    ensures var o := Open(m, kind); StackOk(o) && forall k :: 0 <= k < |o.stack| ==> FrameChain(o.tokens, o.stack, k)
  {
    var ts, us, stack := m.tokens, Open(m, kind).tokens, Open(m, kind).stack;
    var n := |m.stack|;
    forall k | 0 <= k < |stack| ensures FrameChain(us, stack, k) {
      if k < n {
        assert FrameChain(ts, m.stack, k);
        var dict := ts[m.stack[k].token].kind == DictToken;
        var j := if k + 1 < n then m.stack[k + 1].token else |ts|;
        ChainFrame(ts, us, m.stack[k].token + 1, j, dict, true, if k + 1 < n then false else !m.stack[k].value);
        if k == n - 1 { ChainAny(us, m.stack[k].token + 1, j, !m.stack[k].value, false, dict); }
      }
    }
  }

  // ----------------------------------------------------------- a container closes

  /** The innermost container gets its link and an end token behind its items. */
  lemma CloseChains(ts: seq<Token>, us: seq<Token>, stack: seq<Frame>, rest: seq<Frame>, link: nat)
    requires stack != [] && StackShape(ts, stack) && rest == stack[..|stack| - 1]
    requires var top := stack[|stack| - 1].token;
      && |us| > |ts| && link > 0 && top + link <= |us| && us[top] == ts[top].(next := link)
      && forall x :: 0 <= x < |ts| && x != top ==> us[x] == ts[x]
    requires forall k :: 0 <= k < |stack| - 1 ==> FrameChain(ts, stack, k)
    requires forall k :: 0 <= k < |stack| ==> stack[k].token < |us|
    ensures StackShape(us, rest)
    ensures |stack| > 1 ==> Chain(us, stack[|stack| - 2].token + 1, stack[|stack| - 1].token, us[stack[|stack| - 2].token].kind == DictToken, true, false)
    ensures forall k :: 0 <= k < |rest| - 1 ==> FrameChain(us, rest, k)
  {
    hide Chain;
    var n := |stack| - 1;
    if n > 0 {
      assert FrameChain(ts, stack, n - 1);
      ChainFrame(ts, us, stack[n - 1].token + 1, stack[n].token, ts[stack[n - 1].token].kind == DictToken, true, false);
    }
    forall k | 0 <= k < n - 1 ensures FrameChain(us, rest, k) {
      assert FrameChain(ts, stack, k);
      FramesSnoc(ts, us, stack, k);
    }
  }

  lemma CloseShape(ts: seq<Token>, us: seq<Token>, stack: seq<Frame>, rest: seq<Frame>, link: nat, end: nat)
    requires stack != [] && rest == stack[..|stack| - 1] && Shape(ts, stack) && |ts| <= end < |us| && us[end].kind == EndToken
    requires var top := stack[|stack| - 1].token;
      && us[top] == ts[top].(next := link) && link > 0
      && (forall x :: 0 <= x < |ts| && x != top ==> us[x] == ts[x])
      && Walks(us, top + 1, ts[top].kind == DictToken, true)
    requires Links(us) && (forall i :: |ts| <= i < |us| && Container(us[i]) ==> us[i].next > 0 && Walks(us, i + 1, us[i].kind == DictToken, true))
    ensures ClosedOk(us) && OpenOnStack(us, rest)
  {
    hide Walks;
    var top := stack[|stack| - 1].token;
    assert Extends(ts, us);
    ClosedFrame(ts, us);
    forall i | 0 <= i < |us| && Container(us[i]) && us[i].next > 0 ensures Walks(us, i + 1, us[i].kind == DictToken, true) {
      if i < |ts| && i != top { assert us[i] == ts[i]; }
    }
    forall i | 0 <= i < |us| && Container(us[i]) && us[i].next == 0
      ensures exists k :: 0 <= k < |rest| && rest[k].token == i
    {
      assert us[i] == ts[i];
      var k :| 0 <= k < |stack| && stack[k].token == i;
      assert rest[k].token == i;
    }
  }

  /** The items of the container that closes end with its own end token. */
  lemma TopWalks(ts: seq<Token>, us: seq<Token>, top: nat, dict: bool, end: bool)
    requires top < |ts| < |us| && Chain(ts, top + 1, |ts|, dict, true, end) && (dict ==> end)
    requires us[|ts|].kind == EndToken && forall x :: top < x < |ts| ==> us[x] == ts[x]
    ensures Walks(us, top + 1, dict, true)
  {
    ChainFrame(ts, us, top + 1, |ts|, dict, true, end);
    ChainWalks(us, top + 1, |ts|, dict, true, end);
  }

  /** An `e` closes the innermost container. */
  lemma EndShape(m: Machine, us: seq<Token>, rest: seq<Frame>)
    requires m.stack != [] && rest == m.stack[..|m.stack| - 1] && StackOk(m) && Shape(m.tokens, m.stack)
    requires forall k :: 0 <= k < |m.stack| ==> FrameChain(m.tokens, m.stack, k)
    requires !(InDict(m) && m.stack[|m.stack| - 1].value)
    requires var ts, top := m.tokens, m.stack[|m.stack| - 1].token;
      us == (ts + [Token(m.start, EndToken, 1, 0)])[top := ts[top].(next := |ts| + 1 - top)]
    ensures Shape(us, rest) && forall k :: 0 <= k < |rest| ==> FrameChain(us, rest, k)
  {
    hide Chain, Walks, Container, ClosedOk, OpenOnStack, Links;
    var ts, n := m.tokens, |m.stack| - 1;
    var top := m.stack[n].token;
    var link := |ts| + 1 - top;
    assert FrameChain(ts, m.stack, n);
    TopWalks(ts, us, top, InDict(m), !m.stack[n].value);
    CloseChains(ts, us, m.stack, rest, link);
    ContainerNot(us[|ts|]);
    ContainerNot(ts[top]);
    LinksEnd(ts, us, top);
    CloseShape(ts, us, m.stack, rest, link, |ts|);
    if n > 0 { EndParent(ts, us, rest, top, link); }
  }

  /** The container that was closed is now an item of its own container. */
  lemma EndParent(ts: seq<Token>, us: seq<Token>, rest: seq<Frame>, top: nat, link: nat)
    requires rest != [] && StackShape(us, rest) && top < |us| && us[top].kind != EndToken && us[top].next == link > 0 && top + link == |us|
    requires var p := rest[|rest| - 1].token; Chain(us, p + 1, top, us[p].kind == DictToken, true, false)
    requires us[rest[|rest| - 1].token].kind == DictToken ==> !rest[|rest| - 1].value
    ensures FrameChain(us, rest, |rest| - 1)
  {
    hide Chain;
    var p := rest[|rest| - 1].token;
    var dict := us[p].kind == DictToken;
    ChainSnoc(us, p + 1, top, dict, true, false);
    ChainAny(us, p + 1, |us|, true, !rest[|rest| - 1].value, dict);
  }

  lemma LinksEnd(ts: seq<Token>, us: seq<Token>, top: nat)
    requires Links(ts) && top < |ts| && Container(ts[top]) && |us| == |ts| + 1 && us[|ts|].kind == EndToken && us[|ts|].next == 1
    requires us[top] == ts[top].(next := |ts| + 1 - top) && forall x :: 0 <= x < |ts| && x != top ==> us[x] == ts[x]
    ensures Links(us)
  {}

  lemma EndKeeps(buf: Bytes, m: Machine)
    requires Building(buf, m) && StackOk(m) && |buf| <= MAX_OFFSET && m.start < |buf|
    requires m.stack != [] && !(InDict(m) && m.stack[|m.stack| - 1].value)
    ensures ParseEnd(m).Go? && Building(buf, ParseEnd(m).m)
  {
    hide Shape, Offsets, FrameChain;
    var ts, n := m.tokens, |m.stack| - 1;
    var top := m.stack[n].token;
    var us := ParseEnd(m).m.tokens;
    assert us == (ts + [Token(m.start, EndToken, 1, 0)])[top := ts[top].(next := |ts| + 1 - top)];
    EndShape(m, us, m.stack[..n]);
    EndOffsets(ts, us, m.start, top);
  }

  lemma ContainerNot(t: Token)
    ensures Container(t) ==> t.kind != EndToken
  {}

  lemma EndOffsets(ts: seq<Token>, us: seq<Token>, start: nat, top: nat)
    requires Offsets(ts, start) && top < |ts| && |us| == |ts| + 1 && us[|ts|] == Token(start, EndToken, 1, 0)
    requires us[top] == ts[top].(next := us[top].next) && forall x :: 0 <= x < |ts| && x != top ==> us[x] == ts[x]
    ensures Offsets(us, start + 1)
  {
    hide Extent;
    assert Extent(us[|ts|]) == 0 && Extent(us[top]) == Extent(ts[top]) by { ExtentSame(us[top], ts[top], us[|ts|]); }
    forall i | 0 <= i < |us| ensures us[i].offset + Extent(us[i]) <= NextOffset(us, i, start + 1) {
      if i < |ts| { assert ts[i].offset + Extent(ts[i]) <= NextOffset(ts, i, start); }
    }
  }

  lemma ExtentSame(a: Token, b: Token, end: Token)
    requires a.kind == b.kind && a.header == b.header && end.kind == EndToken
    ensures Extent(a) == Extent(b) && Extent(end) == 0
  {}

  // ------------------------------------------------------------------ the whole run

  lemma LaterStart(buf: Bytes, m: Machine, at: nat)
    requires Building(buf, m) && m.start <= at <= |buf|
    ensures Building(buf, m.(start := at))
  {
    hide Shape, FrameChain;
    forall i | 0 <= i < |m.tokens| ensures m.tokens[i].offset + Extent(m.tokens[i]) <= NextOffset(m.tokens, i, at) {
      assert m.tokens[i].offset + Extent(m.tokens[i]) <= NextOffset(m.tokens, i, m.start);
    }
  }

  lemma StepKeeps(buf: Bytes, m: Machine, depthLimit: int, left: int)
    requires Building(buf, m) && StackOk(m) && |buf| <= MAX_OFFSET
    ensures Building(buf, Step(buf, m, depthLimit, left).m)
  {
    hide Building, CheckInteger, StringHead, Open, ParseEnd;
    Bounds(buf, m);
    LaterStart(buf, m, m.start);
    if m.start < |buf| && |m.stack| < depthLimit && left > 0 {
      var t := buf[m.start];
      if InDict(m) && !m.stack[|m.stack| - 1].value && !Numeric(t) && t != END {
      } else if t == DICT {
        OpenKeeps(buf, m, DictToken);
      } else if t == LIST {
        OpenKeeps(buf, m, ListToken);
      } else if t == INT {
        var (end, e) := CheckInteger(buf, m.start + 1);
        if e == NoError { LeafKeeps(buf, m, Token(m.start, IntegerToken, 1, 0), end + 1); }
      } else if t == END {
        if m.stack == [] {
          EndFails(m);
        } else if InDict(m) && m.stack[|m.stack| - 1].value {
          EndFails(m);
        } else {
          EndKeeps(buf, m);
        }
      } else if Numeric(t) {
        var (at, len, e) := StringHead(buf, m.start);
        if e == NoError {
          LeafKeeps(buf, m, Token(m.start, StringToken, 1, at - m.start - 2), at + len);
        } else {
          LaterStart(buf, m, at);
        }
      }
    }
  }

  lemma Bounds(buf: Bytes, m: Machine)
    requires Building(buf, m)
    ensures m.start <= |buf|
  {}

  lemma EndFails(m: Machine)
    requires StackOk(m) && (m.stack == [] || (InDict(m) && m.stack[|m.stack| - 1].value))
    ensures ParseEnd(m).Fail? && ParseEnd(m).m == m
  {}

  lemma {:induction false} ParseKeeps(buf: Bytes, m: Machine, depthLimit: int, left: int)
    requires Building(buf, m) && StackOk(m) && |buf| <= MAX_OFFSET && m.start <= |buf|
    ensures Building(buf, Parse(buf, m, depthLimit, left).m)
    decreases |buf| - m.start
  {
    hide Building, Step;
    StepProgress(buf, m, depthLimit, left);
    StepKeeps(buf, m, depthLimit, left);
    var r := Step(buf, m, depthLimit, left);
    if !(r.Fail? || r.m.stack == []) { ParseKeeps(buf, r.m, depthLimit, left - 1); }
  }

  // ---------------------------------------------------------------- unwinding

  /** A container that was closed without its end token: its link leads to one. */
  predicate Sealed(ts: seq<Token>, j: nat) {
    && j < |ts| && ts[j].kind != EndToken && ts[j].next > 0 && j + ts[j].next < |ts| && ts[j + ts[j].next].kind == EndToken
  }

  lemma SealedWalks(ts: seq<Token>, j: nat, dict: bool, key: bool)
    requires Sealed(ts, j) && (dict ==> !key)
    ensures Walks(ts, j, dict, key)
  {
    assert Walks(ts, j + ts[j].next, dict, !key);
  }

  /** The innermost open container: its items go to the end of the array, or to the
      sealed container at `j` that was inside it. */
  predicate TopChain(ts: seq<Token>, f: Frame, j: nat)
    requires f.token < |ts|
  {
    var dict := ts[f.token].kind == DictToken;
    if j == |ts| then Chain(ts, f.token + 1, j, dict, true, !f.value)
    else Chain(ts, f.token + 1, j, dict, true, false) && Sealed(ts, j) && (dict ==> !f.value)
  }

  predicate Unwinding(buf: Bytes, m: Machine, j: nat) {
    && m.start <= |buf| && StackOk(m) && Shape(m.tokens, m.stack) && Offsets(m.tokens, m.start)
    && (m.stack != [] ==> TopChain(m.tokens, m.stack[|m.stack| - 1], j))
    && forall k :: 0 <= k < |m.stack| - 1 ==> FrameChain(m.tokens, m.stack, k)
  }

  lemma CloseWalks(ts: seq<Token>, us: seq<Token>, f: Frame, j: nat, value: bool)
    requires f.token < |ts| && Container(ts[f.token]) && TopChain(ts, f, j) && j <= |ts| && value == (ts[f.token].kind == DictToken && f.value)
    requires |us| == |ts| + (if value then 3 else 1)
    requires forall x :: f.token < x < |ts| ==> us[x] == ts[x]
    requires value ==> us[|ts|].kind == DictToken && us[|ts|].next == 2
    requires us[|us| - 1].kind == EndToken
    ensures Walks(us, f.token + 1, ts[f.token].kind == DictToken, true)
  {
    var dict := ts[f.token].kind == DictToken;
    if j == |ts| {
      ChainFrame(ts, us, f.token + 1, |ts|, dict, true, !f.value);
      if value {
        ChainSnoc(us, f.token + 1, |ts|, dict, true, false);
        ChainWalks(us, f.token + 1, |ts| + 2, dict, true, true);
      } else {
        ChainWalks(us, f.token + 1, |ts|, dict, true, !f.value);
      }
    } else {
      ChainFrame(ts, us, f.token + 1, j, dict, true, false);
      ChainIn(ts, f.token + 1, j, dict, true, false);
      SealedWalks(us, j, dict, false);
      if !dict { SealedWalks(us, j, dict, true); }
      ChainWalks(us, f.token + 1, j, dict, true, false);
    }
  }

  lemma ChainIn(ts: seq<Token>, i: nat, j: nat, dict: bool, key: bool, end: bool)
    requires Chain(ts, i, j, dict, key, end)
    ensures i <= j
  {}

  lemma CloseOffsets(ts: seq<Token>, start: nat, top: nat, link: nat, value: bool)
    requires Offsets(ts, start) && top < |ts|
    ensures var vs := if value then ts + [Token(start, DictToken, 2, 0), Token(start, EndToken, 0, 0)] else ts;
      Offsets(vs[top := vs[top].(next := link)] + [Token(start, EndToken, 1, 0)], start)
  {
    var vs := if value then ts + [Token(start, DictToken, 2, 0), Token(start, EndToken, 0, 0)] else ts;
    var us := vs[top := vs[top].(next := link)] + [Token(start, EndToken, 1, 0)];
    forall i | 0 <= i < |us| ensures us[i].offset + Extent(us[i]) <= NextOffset(us, i, start) {
      if i < |ts| { assert ts[i].offset + Extent(ts[i]) <= NextOffset(ts, i, start); }
    }
  }

  lemma CloseLinks(ts: seq<Token>, us: seq<Token>, top: nat, value: bool)
    requires Links(ts) && top < |ts| && Container(ts[top]) && |us| == |ts| + (if value then 3 else 1)
    requires us[top] == ts[top].(next := |us| - 1 - top) && forall x :: 0 <= x < |ts| && x != top ==> us[x] == ts[x]
    requires value ==> Container(us[|ts|]) && us[|ts|].next == 2 && us[|ts| + 1].kind == EndToken && us[|ts| + 1].next == 0
    requires us[|us| - 1].kind == EndToken && us[|us| - 1].next == 1
    ensures Links(us)
  {}

  /** The tokens after container `top` was closed, token by token. */
  predicate ClosedTop(ts: seq<Token>, us: seq<Token>, top: nat, value: bool) {
    && top < |ts| && |us| == |ts| + (if value then 3 else 1)
    && us[top] == ts[top].(next := |us| - 1 - top)
    && (forall x :: 0 <= x < |ts| && x != top ==> us[x] == ts[x])
    && (value ==> us[|ts|].kind == DictToken && us[|ts|].next == 2 && us[|ts| + 1].kind == EndToken && us[|ts| + 1].next == 0)
    && us[|us| - 1].kind == EndToken && us[|us| - 1].next == 1
  }

  lemma CloseTopIs(m: Machine)
    requires StackOk(m) && m.stack != []
    ensures var f := m.stack[|m.stack| - 1]; var value := InDict(m) && f.value;
      ClosedTop(m.tokens, CloseTop(m).tokens, f.token, value)
    ensures CloseTop(m).stack == m.stack[..|m.stack| - 1] && CloseTop(m).start == m.start
  {}

  lemma ClosedShape(ts: seq<Token>, us: seq<Token>, stack: seq<Frame>, rest: seq<Frame>, j: nat, value: bool)
    requires stack != [] && rest == stack[..|stack| - 1] && Shape(ts, stack) && j <= |ts|
    requires ClosedTop(ts, us, stack[|stack| - 1].token, value)
    requires value == (ts[stack[|stack| - 1].token].kind == DictToken && stack[|stack| - 1].value)
    requires TopChain(ts, stack[|stack| - 1], j) && forall k :: 0 <= k < |stack| - 1 ==> FrameChain(ts, stack, k)
    ensures Shape(us, rest) && (forall k :: 0 <= k < |rest| - 1 ==> FrameChain(us, rest, k))
    ensures rest != [] ==> TopChain(us, rest[|rest| - 1], stack[|stack| - 1].token)
  {
    hide Chain, Walks, FrameChain, TopChain;
    var f := stack[|stack| - 1];
    CloseWalks(ts, us, f, j, value);
    CloseLinks(ts, us, f.token, value);
    CloseChains(ts, us, stack, rest, |us| - 1 - f.token);
    if value { DummyWalks(us, |ts|); }
    CloseShape(ts, us, stack, rest, |us| - 1 - f.token, |us| - 1);
    if rest != [] { SealedTop(ts, us, stack, rest); }
  }

  /** Closing the innermost container keeps the tree in shape. */
  lemma CloseTopKeeps(buf: Bytes, m: Machine, j: nat)
    requires Unwinding(buf, m, j) && m.stack != [] && j <= |m.tokens|
    ensures Unwinding(buf, CloseTop(m), m.stack[|m.stack| - 1].token)
    ensures m.stack[|m.stack| - 1].token <= |CloseTop(m).tokens|
  {
    hide Shape, Offsets, FrameChain, TopChain;
    var f := m.stack[|m.stack| - 1];
    var value := InDict(m) && f.value;
    CloseTopIs(m);
    ClosedShape(m.tokens, CloseTop(m).tokens, m.stack, CloseTop(m).stack, j, value);
    CloseOffsets(m.tokens, m.start, f.token, |CloseTop(m).tokens| - 1 - f.token, value);
  }

  lemma DummyWalks(us: seq<Token>, i: nat)
    requires i + 1 < |us| && us[i + 1].kind == EndToken
    ensures Walks(us, i + 1, true, true)
  {}

  lemma SealedTop(ts: seq<Token>, us: seq<Token>, stack: seq<Frame>, rest: seq<Frame>)
    requires |stack| > 1 && rest == stack[..|stack| - 1] && StackShape(ts, stack) && |us| > |ts|
    requires var n, top := |stack| - 1, stack[|stack| - 1].token;
      && us[top] == ts[top].(next := |us| - 1 - top) && us[|us| - 1].kind == EndToken
      && (forall x :: 0 <= x < |ts| && x != top ==> us[x] == ts[x])
      && Chain(us, stack[n - 1].token + 1, top, us[stack[n - 1].token].kind == DictToken, true, false)
    ensures TopChain(us, rest[|rest| - 1], stack[|stack| - 1].token)
  {
    hide Chain;
  }

  lemma {:induction false} UnwindKeeps(buf: Bytes, m: Machine, j: nat)
    requires Unwinding(buf, m, j) && j <= |m.tokens|
    ensures var u := Unwind(m); u.start == m.start && u.stack == [] && Unwinding(buf, u, 0)
    decreases |m.stack|
  {
    hide Shape, Offsets, FrameChain, TopChain;
    if m.stack != [] {
      CloseTopKeeps(buf, m, j);
      UnwindKeeps(buf, CloseTop(m), m.stack[|m.stack| - 1].token);
    }
  }

  lemma BuildingUnwinds(buf: Bytes, m: Machine)
    requires Building(buf, m) && StackOk(m)
    ensures Unwinding(buf, m, |m.tokens|)
  {
    hide Shape, Offsets, Chain;
    if m.stack != [] { assert FrameChain(m.tokens, m.stack, |m.stack| - 1); }
  }

  lemma FinalTree(buf: Bytes, m: Machine)
    requires Unwinding(buf, m, 0) && m.stack == []
    ensures Tree(m.tokens + [Token(m.start, EndToken, 0, 0)], m.start)
  {
    hide Walks;
    var ts := m.tokens;
    var us := ts + [Token(m.start, EndToken, 0, 0)];
    LeafOffsets(ts, m.start, Token(m.start, EndToken, 0, 0), m.start);
    ClosedFrame(ts, us);
  }

  /** For every buffer and every limit, whether or not parsing succeeds, bdecode leaves a
      well-formed tree inside the buffer. Only a buffer too large for the token format
      is refused without one. */
  lemma DecodeTree(buf: Bytes, depthLimit: int, tokenLimit: int)
    ensures var r := Decode(buf, depthLimit, tokenLimit);
      if |buf| > MAX_OFFSET then r.tokens == [] && r.err == LimitExceeded
      else Tree(r.tokens, |buf|)
  {
    hide Parse, Building, Unwinding;
    if |buf| <= MAX_OFFSET {
      var m := if buf == [] then EMPTY_MACHINE else Parse(buf, EMPTY_MACHINE, depthLimit, tokenLimit).m;
      ParseStackOk(buf, EMPTY_MACHINE, depthLimit, tokenLimit);
      EmptyBuilding(buf);
      ParseKeeps(buf, EMPTY_MACHINE, depthLimit, tokenLimit);
      BuildingUnwinds(buf, m);
      UnwindKeeps(buf, m, |m.tokens|);
      FinalTree(buf, Unwind(m));
      TreeLarger(Decode(buf, depthLimit, tokenLimit).tokens, m.start, |buf|);
    }
  }

  lemma EmptyBuilding(buf: Bytes)
    ensures Building(buf, EMPTY_MACHINE)
  {}

  lemma TreeLarger(ts: seq<Token>, start: nat, size: nat)
    requires Tree(ts, start) && start <= size
    ensures Tree(ts, size)
  {
    hide Walks;
    forall i | 0 <= i < |ts| ensures ts[i].offset + Extent(ts[i]) <= NextOffset(ts, i, size) {
      assert ts[i].offset + Extent(ts[i]) <= NextOffset(ts, i, start);
    }
  }

  /** In a tree offsets never decrease. */
  lemma {:induction false} OffsetsMonotone(ts: seq<Token>, size: nat, i: nat, j: nat)
    requires Tree(ts, size) && i <= j < |ts|
    ensures ts[i].offset <= ts[j].offset <= size
    decreases |ts| - i
  {
    hide Walks;
    assert ts[i].offset + Extent(ts[i]) <= NextOffset(ts, i, size);
    if i < j {
      OffsetsMonotone(ts, size, i + 1, j);
    } else if i + 1 < |ts| {
      OffsetsMonotone(ts, size, i + 1, |ts| - 1);
    }
  }

  // ----------------------------------------------------------- the width of the links

  lemma {:induction false} ParseDepth(buf: Bytes, m: Machine, depthLimit: int, left: int)
    requires StackOk(m) && m.start <= |buf| && (m.stack != [] ==> |m.stack| <= depthLimit)
    ensures var r := Parse(buf, m, depthLimit, left).m; r.stack != [] ==> |r.stack| <= depthLimit
    decreases |buf| - m.start
  {
    hide CheckInteger, StringHead;
    StepProgress(buf, m, depthLimit, left);
    var r := Step(buf, m, depthLimit, left);
    assert r.m.stack != [] ==> |r.m.stack| <= depthLimit;
    hide Step;
    if !(r.Fail? || r.m.stack == []) { ParseDepth(buf, r.m, depthLimit, left - 1); }
  }

  lemma {:induction false} UnwindLength(m: Machine)
    requires StackOk(m)
    ensures |Unwind(m).tokens| <= |m.tokens| + 3 * |m.stack|
    decreases |m.stack|
  {
    if m.stack != [] { UnwindLength(CloseTop(m)); }
  }

  /** A link fits its 29 bits for every buffer, unless the depth limit itself is in the
      hundreds of millions. */
  lemma LinksFit(buf: Bytes, depthLimit: nat, tokenLimit: int, i: nat)
    requires |buf| + 3 * depthLimit + 1 <= MAX_NEXT_ITEM
    ensures var ts := Decode(buf, depthLimit, tokenLimit).tokens; i < |ts| ==> ts[i].next <= MAX_NEXT_ITEM
  {
    hide Walks, Parse, Unwind, Building;
    DecodeTree(buf, depthLimit, tokenLimit);
    var m := if buf == [] then EMPTY_MACHINE else Parse(buf, EMPTY_MACHINE, depthLimit, tokenLimit).m;
    ParseStackOk(buf, EMPTY_MACHINE, depthLimit, tokenLimit);
    EmptyBuilding(buf);
    ParseKeeps(buf, EMPTY_MACHINE, depthLimit, tokenLimit);
    ParseDepth(buf, EMPTY_MACHINE, depthLimit, tokenLimit);
    UnwindLength(m);
    BuildingLength(buf, m);
  }

  lemma BuildingLength(buf: Bytes, m: Machine)
    requires Building(buf, m)
    ensures |m.tokens| <= |buf|
  {}

  predicate Capped(ts: seq<Token>) { forall i :: 0 <= i < |ts| ==> ts[i].next <= MAX_NEXT_ITEM }

  /** The outermost open container is the first token. */
  predicate Rooted(m: Machine) { if m.stack == [] then m.tokens == [] else m.stack[0].token == 0 }

  lemma StepCapped(buf: Bytes, m: Machine, depthLimit: int, left: int)
    requires StackOk(m) && m.start <= |buf| && Rooted(m) && Capped(m.tokens)
    ensures var r := Step(buf, m, depthLimit, left); Capped(r.m.tokens) && (r.Fail? || r.m.stack != [] ==> Rooted(r.m))
  {
    hide CheckInteger, StringHead;
  }

  lemma {:induction false} ParseCapped(buf: Bytes, m: Machine, depthLimit: int, left: int)
    requires StackOk(m) && m.start <= |buf| && Rooted(m) && Capped(m.tokens)
    ensures var r := Parse(buf, m, depthLimit, left); Capped(r.m.tokens) && (r.Fail? ==> Rooted(r.m))
    decreases |buf| - m.start
  {
    hide Step, Capped;
    StepProgress(buf, m, depthLimit, left);
    StepCapped(buf, m, depthLimit, left);
    var r := Step(buf, m, depthLimit, left);
    if !(r.Fail? || r.m.stack == []) { ParseCapped(buf, r.m, depthLimit, left - 1); }
  }

  /** The last container to be closed gets a link over everything. */
  lemma {:induction false} UnwindRoot(m: Machine)
    requires StackOk(m) && Rooted(m) && m.stack != []
    ensures var ts := Unwind(m).tokens; ts != [] && ts[0].next == |ts| - 1
    decreases |m.stack|
  {
    CloseTopIs(m);
    var c := CloseTop(m);
    if |m.stack| == 1 {
      assert Unwind(c) == c;
    } else {
      UnwindRoot(c);
    }
  }

  /** Whatever the limits, all links fit their 29 bits exactly if there was no error or
      the repair after it left no more tokens than a link can span. */
  lemma LinksFitExactly(buf: Bytes, depthLimit: int, tokenLimit: int)
    requires |buf| <= MAX_OFFSET
    ensures var r := Decode(buf, depthLimit, tokenLimit);
      Capped(r.tokens) <==> r.err == NoError || |r.tokens| - 2 <= MAX_NEXT_ITEM
  {
    hide Walks, Parse, Unwind, Building, Offsets;
    var r := Decode(buf, depthLimit, tokenLimit);
    DecodeTree(buf, depthLimit, tokenLimit);
    var o := if buf == [] then Fail(EMPTY_MACHINE, UnexpectedEof, 0) else Parse(buf, EMPTY_MACHINE, depthLimit, tokenLimit);
    ParseStackOk(buf, EMPTY_MACHINE, depthLimit, tokenLimit);
    ParseCapped(buf, EMPTY_MACHINE, depthLimit, tokenLimit);
    ParseErr(buf, EMPTY_MACHINE, depthLimit, tokenLimit);
    UnwindNone(o.m);
    if o.Fail? && o.m.stack != [] {
      UnwindRoot(o.m);
      forall i | 0 <= i < |r.tokens| ensures r.tokens[i].next <= |r.tokens| - 2 {
        assert i + r.tokens[i].next < |r.tokens|;
      }
      assert r.tokens[0].next == |r.tokens| - 2;
    } else {
      assert r.tokens == o.m.tokens + [Token(o.m.start, EndToken, 0, 0)];
      assert o.Go? || o.m.tokens == [];
    }
  }

  lemma {:induction false} ParseErr(buf: Bytes, m: Machine, depthLimit: int, left: int)
    requires StackOk(m) && m.start <= |buf|
    ensures var r := Parse(buf, m, depthLimit, left); r.Fail? ==> r.err != NoError
    decreases |buf| - m.start
  {
    StepErr(buf, m, depthLimit, left);
    StepProgress(buf, m, depthLimit, left);
    hide Step;
    var r := Step(buf, m, depthLimit, left);
    if !(r.Fail? || r.m.stack == []) { ParseErr(buf, r.m, depthLimit, left - 1); }
  }

  lemma StepErr(buf: Bytes, m: Machine, depthLimit: int, left: int)
    requires StackOk(m) && m.start <= |buf|
    ensures var r := Step(buf, m, depthLimit, left); r.Fail? ==> r.err != NoError
  {
    hide CheckInteger, StringHead;
  }

  lemma UnwindNone(m: Machine)
    requires StackOk(m)
    ensures m.stack == [] ==> Unwind(m) == m
  {}
}
