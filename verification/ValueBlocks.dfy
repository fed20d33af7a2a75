/** Component-value blocks of a token list: the per-opener scan for a block's
    end, and the one-pass index that replaces it. */
module ValueBlocks {
  /** `Variable` is a function token spelled `var(` in any case. */
  datatype Kind =
    | Function | Variable | LeftParenthesis | LeftBracket | LeftBrace
    | RightParenthesis | RightBracket | RightBrace
    | Comma | Ident | CustomPropertyName | Whitespace | Comment | Other

  datatype Token = Token(kind: Kind, raw: string)

  predicate Opens(kind: Kind) {
    kind.Function? || kind.Variable? || kind.LeftParenthesis? || kind.LeftBracket? || kind.LeftBrace?
  }

  function ExpectedClosing(kind: Kind): Kind
    requires Opens(kind)
  {
    if kind == LeftBracket then RightBracket else if kind == LeftBrace then RightBrace else RightParenthesis
  }

  predicate IsClosing(kind: Kind) {
    kind.RightParenthesis? || kind.RightBracket? || kind.RightBrace?
  }

  /** A closer only closes the innermost block, and only if it matches. */
  function AdvanceDelimiters(stack: seq<Kind>, kind: Kind): (seq<Kind>, bool) {
    if Opens(kind) then (stack + [ExpectedClosing(kind)], false)
    else if !IsClosing(kind) || stack == [] || stack[|stack| - 1] != kind then (stack, false)
    else (stack[..|stack| - 1], true)
  }

  /** Where the outermost of the open blocks `stack` ends, reading on from `i`. */
  function CloseFrom(ts: seq<Token>, i: nat, stack: seq<Kind>): (end: nat)
    requires i <= |ts| && stack != []
    ensures i <= end <= |ts|
    decreases |ts| - i
  {
    if i == |ts| then i
    else
      var next := AdvanceDelimiters(stack, ts[i].kind).0;
      if next == [] then i else CloseFrom(ts, i + 1, next)
  }

  /** The end of the block opened at `start`. */
  function ClosingOf(ts: seq<Token>, start: nat): nat
    requires start < |ts|
  {
    if Opens(ts[start].kind) then CloseFrom(ts, start + 1, [ExpectedClosing(ts[start].kind)]) else |ts|
  }

  /** The first comma directly inside the outermost of the open blocks, or -1. */
  function CommaFrom(ts: seq<Token>, i: nat, stack: seq<Kind>): (comma: int)
    requires i <= |ts| && stack != []
    ensures comma == -1 || i <= comma < CloseFrom(ts, i, stack)
    decreases |ts| - i
  {
    if i == |ts| then -1
    else
      var next := AdvanceDelimiters(stack, ts[i].kind).0;
      if next == [] then -1
      else if ts[i].kind == Comma && |stack| == 1 then i
      else CommaFrom(ts, i + 1, next)
  }

  function CommaOf(ts: seq<Token>, start: nat): (comma: int)
    requires start < |ts| && Opens(ts[start].kind)
    ensures comma == -1 || start < comma < ClosingOf(ts, start)
  {
    CommaFrom(ts, start + 1, [ExpectedClosing(ts[start].kind)])
  }

  /* Balanced blocks. */

  /** A stretch of tokens with the blocks in it closed. */
  datatype Stretch = Nothing | Then(t: Token, rest: Stretch)
    | Enclosed(open: Token, inside: Stretch, close: Token, after: Stretch)

  function StretchTokens(xs: Stretch): seq<Token> {
    match xs
    case Nothing => []
    case Then(t, rest) => [t] + StretchTokens(rest)
    case Enclosed(open, inside, close, after) => [open] + (StretchTokens(inside) + ([close] + StretchTokens(after)))
  }

  /** Which closer goes with which opener. */
  predicate Paired(open: Kind, close: Kind) {
    match open
    case LeftBracket => close == RightBracket
    case LeftBrace => close == RightBrace
    case LeftParenthesis => close == RightParenthesis
    case Function => close == RightParenthesis
    case Variable => close == RightParenthesis
    case _ => false
  }

  /** Every block has its closer, and what stands alone neither opens a block nor
      is the closer `close` of the one around it. */
  predicate Balanced(xs: Stretch, close: Kind) {
    match xs
    case Nothing => true
    case Then(t, rest) =>
      t.kind !in {Function, Variable, LeftParenthesis, LeftBracket, LeftBrace, close} && Balanced(rest, close)
    case Enclosed(open, inside, end, after) =>
      Paired(open.kind, end.kind) && Balanced(inside, end.kind) && Balanced(after, close)
  }

  /** The first comma outside the blocks of a stretch that starts at `at`. */
  function OwnComma(xs: Stretch, at: nat): int {
    match xs
    case Nothing => -1
    case Then(t, rest) => if t.kind == Comma then at else OwnComma(rest, at + 1)
    case Enclosed(open, inside, close, after) => OwnComma(after, at + |StretchTokens(inside)| + 2)
  }

  predicate StandsAt(ts: seq<Token>, i: nat, part: seq<Token>) {
    i + |part| <= |ts| && ts[i..i + |part|] == part
  }

  lemma {:induction false} StandsApart(ts: seq<Token>, i: nat, a: seq<Token>, b: seq<Token>)
    requires StandsAt(ts, i, a + b)
    ensures StandsAt(ts, i, a) && StandsAt(ts, i + |a|, b)
  {
    var part := ts[i..i + |a + b|];
    assert part[..|a|] == a && part[|a|..] == b;
    assert ts[i..i + |a|] == part[..|a|];
    assert ts[i + |a|..i + |a| + |b|] == part[|a|..];
  }

  lemma {:induction false} StandsFirst(ts: seq<Token>, i: nat, t: Token, rest: seq<Token>)
    requires StandsAt(ts, i, [t] + rest)
    ensures i < |ts| && ts[i] == t && StandsAt(ts, i + 1, rest)
  {
    StandsApart(ts, i, [t], rest);
    assert ts[i] == ts[i..i + 1][0];
  }

  lemma {:induction false} StandsInside(ts: seq<Token>, i: nat, xs: Stretch)
    requires StandsAt(ts, i, StretchTokens(xs)) && xs.Enclosed?
    ensures var n := |StretchTokens(xs.inside)|;
            && i + 1 + n < |ts| && ts[i] == xs.open && ts[i + 1 + n] == xs.close
            && StandsAt(ts, i + 1, StretchTokens(xs.inside)) && StandsAt(ts, i + 2 + n, StretchTokens(xs.after))
            && |StretchTokens(xs)| == 2 + n + |StretchTokens(xs.after)|
  {
    var inside, tail := StretchTokens(xs.inside), [xs.close] + StretchTokens(xs.after);
    StandsFirst(ts, i, xs.open, inside + tail);
    StandsApart(ts, i + 1, inside, tail);
    StandsFirst(ts, i + 1 + |inside|, xs.close, StretchTokens(xs.after));
  }

  /** Reading a balanced stretch leaves the open blocks as they were. */
  lemma {:induction false} PassesBalanced(ts: seq<Token>, i: nat, xs: Stretch, stack: seq<Kind>)
    requires stack != [] && StandsAt(ts, i, StretchTokens(xs)) && Balanced(xs, stack[|stack| - 1])
    ensures Passed(ts, i, i + |StretchTokens(xs)|, if |stack| == 1 then OwnComma(xs, i) else -1, stack)
    decreases xs, 2
  {
    match xs
    case Nothing => assert PassedTo(ts, i, i, -1, stack);
    case Then(t, rest) =>
      StandsFirst(ts, i, t, StretchTokens(rest));
      PassesBalanced(ts, i + 1, rest, stack);
      PassesToken(ts, i, i + 1 + |StretchTokens(rest)|, if |stack| == 1 then OwnComma(rest, i + 1) else -1, stack);
    case Enclosed(_, _, _, _) => PassesWhole(ts, i, xs, stack);
  }

  lemma {:induction false} PassesWhole(ts: seq<Token>, i: nat, xs: Stretch, stack: seq<Kind>)
    requires stack != [] && StandsAt(ts, i, StretchTokens(xs)) && Balanced(xs, stack[|stack| - 1]) && xs.Enclosed?
    ensures Passed(ts, i, i + |StretchTokens(xs)|, if |stack| == 1 then OwnComma(xs, i) else -1, stack)
    decreases xs, 1
  {
    var next := PassesOpened(ts, i, xs, stack);
    PassesBalanced(ts, next, xs.after, stack);
    PassedOn(ts, i, next, i + |StretchTokens(xs)|, if |stack| == 1 then OwnComma(xs.after, next) else -1, stack);
  }

  lemma {:induction false} PassesOpened(ts: seq<Token>, i: nat, xs: Stretch, stack: seq<Kind>) returns (next: nat)
    requires stack != [] && StandsAt(ts, i, StretchTokens(xs)) && Balanced(xs, stack[|stack| - 1]) && xs.Enclosed?
    ensures next == i + 2 + |StretchTokens(xs.inside)| && next + |StretchTokens(xs.after)| == i + |StretchTokens(xs)|
    ensures Passed(ts, i, next, -1, stack) && StandsAt(ts, next, StretchTokens(xs.after))
    decreases xs, 0
  {
    StandsInside(ts, i, xs);
    next := i + 2 + |StretchTokens(xs.inside)|;
    var more := stack + [xs.close.kind];
    PassesBalanced(ts, i + 1, xs.inside, more);
    PassesBlock(ts, i, next - 1, stack, more);
  }

  lemma {:induction false} PassesToken(ts: seq<Token>, i: nat, j: nat, comma: int, stack: seq<Kind>)
    requires stack != [] && i < |ts| && Passed(ts, i + 1, j, comma, stack)
    requires ts[i].kind !in {Function, Variable, LeftParenthesis, LeftBracket, LeftBrace, stack[|stack| - 1]}
    ensures Passed(ts, i, j, if |stack| == 1 && ts[i].kind == Comma then i else comma, stack)
  {
    assert AdvanceDelimiters(stack, ts[i].kind).0 == stack && PassedTo(ts, i + 1, j, comma, stack);
    assert PassedTo(ts, i, j, if |stack| == 1 && ts[i].kind == Comma then i else comma, stack);
  }

  /** Reading from `i` comes to `j` with the same blocks open, or to the comma;
      stated so that it unfolds only where a proof names `PassedTo`. */
  ghost predicate Passed(ts: seq<Token>, i: nat, j: nat, comma: int, stack: seq<Kind>)
    requires stack != []
  {
    forall k {:trigger PassedTo(ts, i, j, k, stack)} :: k == comma ==> PassedTo(ts, i, j, k, stack)
  }

  predicate PassedTo(ts: seq<Token>, i: nat, j: nat, comma: int, stack: seq<Kind>)
    requires stack != []
  {
    && i <= j <= |ts| && CloseFrom(ts, i, stack) == CloseFrom(ts, j, stack)
    && CommaFrom(ts, i, stack) == if comma >= 0 then comma else CommaFrom(ts, j, stack)
  }

  lemma {:induction false} PassedOn(ts: seq<Token>, i: nat, j: nat, k: nat, comma: int, stack: seq<Kind>)
    requires stack != [] && Passed(ts, i, j, -1, stack) && Passed(ts, j, k, comma, stack)
    ensures Passed(ts, i, k, comma, stack)
  {
    assert PassedTo(ts, i, j, -1, stack) && PassedTo(ts, j, k, comma, stack);
    assert PassedTo(ts, i, k, comma, stack);
  }

  lemma {:induction false} PassesBlock(ts: seq<Token>, i: nat, end: nat, stack: seq<Kind>, more: seq<Kind>)
    requires stack != [] && i < end < |ts| && Paired(ts[i].kind, ts[end].kind) && more == stack + [ts[end].kind]
    requires Passed(ts, i + 1, end, -1, more)
    ensures Passed(ts, i, end + 1, -1, stack)
  {
    assert PassedTo(ts, i + 1, end, -1, more);
    assert AdvanceDelimiters(stack, ts[i].kind).0 == more;
    assert more[..|more| - 1] == stack && AdvanceDelimiters(more, ts[end].kind).0 == stack;
    assert PassedTo(ts, i, end + 1, -1, stack);
  }

  /** A block with its closer ends there, whatever follows, and its first comma is
      the first that is in no block inside it. */
  lemma {:induction false} BlockEnds(ts: seq<Token>, start: nat, open: Token, inside: Stretch, close: Token)
    requires Paired(open.kind, close.kind) && Balanced(inside, close.kind)
    requires StandsAt(ts, start, StretchTokens(Enclosed(open, inside, close, Nothing)))
    ensures ClosingOf(ts, start) == start + 1 + |StretchTokens(inside)|
    ensures CommaOf(ts, start) == OwnComma(inside, start + 1)
  {
    StandsInside(ts, start, Enclosed(open, inside, close, Nothing));
    PassesBalanced(ts, start + 1, inside, [close.kind]);
    assert PassedTo(ts, start + 1, start + 1 + |StretchTokens(inside)|, OwnComma(inside, start + 1), [close.kind]);
    assert AdvanceDelimiters([close.kind], close.kind).0 == [];
    CommaSomewhere(inside, start + 1);
  }

  lemma {:induction false} CommaSomewhere(xs: Stretch, at: nat)
    ensures OwnComma(xs, at) >= -1
  {
    match xs
    case Nothing =>
    case Then(_, rest) => CommaSomewhere(rest, at + 1);
    case Enclosed(_, inside, _, after) => CommaSomewhere(after, at + |StretchTokens(inside)| + 2);
  }

  /** One scan per opener. */
  method Closing(ts: seq<Token>, start: nat) returns (end: nat)
    requires start < |ts|
    ensures end == ClosingOf(ts, start)
  {
    if !Opens(ts[start].kind) {
      return |ts|;
    }
    var stack := [ExpectedClosing(ts[start].kind)];
    for i := start + 1 to |ts|
      invariant stack != [] && CloseFrom(ts, i, stack) == ClosingOf(ts, start)
    {
      var (next, matched) := AdvanceDelimiters(stack, ts[i].kind);
      stack := next;
      if matched && |stack| == 0 {
        return i;
      }
    }
    return |ts|;
  }

  /** What is recorded for an opener: the end of its block, its first own comma
      or -1, and the name it refers to when it is a reference. */
  datatype ValueBlock = ValueBlock(end: nat, comma: int, name: string)

  predicate AreOpen(ts: seq<Token>, i: nat, open: seq<nat>) {
    i <= |ts| && forall k :: 0 <= k < |open| ==> open[k] < i && Opens(ts[open[k]].kind)
  }

  /** The closers the open blocks wait for. */
  ghost function Closers(ts: seq<Token>, open: seq<nat>): (closers: seq<Kind>)
    requires AreOpen(ts, |ts|, open)
    ensures |closers| == |open|
  {
    seq(|open|, k requires 0 <= k < |open| => ExpectedClosing(ts[open[k]].kind))
  }

  /** What is known at `i` of the open block `open[k]`, stated so that it unfolds
      only where a proof names `PendingFor`. */
  ghost predicate Pending(ts: seq<Token>, i: nat, open: seq<nat>, k: nat, block: ValueBlock)
    requires AreOpen(ts, i, open) && k < |open|
  {
    forall b {:trigger PendingFor(ts, i, open, k, b)} :: b == block ==> PendingFor(ts, i, open, k, b)
  }

  ghost predicate PendingFor(ts: seq<Token>, i: nat, open: seq<nat>, k: nat, block: ValueBlock)
    requires AreOpen(ts, i, open) && k < |open|
  {
    && block.end == |ts| && block.comma >= -1
    && ClosingOf(ts, open[k]) == CloseFrom(ts, i, Closers(ts, open[k..]))
    && CommaOf(ts, open[k]) == if block.comma >= 0 then block.comma else CommaFrom(ts, i, Closers(ts, open[k..]))
  }

  lemma {:induction false} PendingOpened(ts: seq<Token>, i: nat, open: seq<nat>, k: nat, block: ValueBlock)
    requires i < |ts| && AreOpen(ts, i, open) && Opens(ts[i].kind) && k < |open| && Pending(ts, i, open, k, block)
    ensures Pending(ts, i + 1, open + [i], k, block)
  {
    assert PendingFor(ts, i, open, k, block);
    assert (open + [i])[k..] == open[k..] + [i];
    assert Closers(ts, open[k..] + [i]) == Closers(ts, open[k..]) + [ExpectedClosing(ts[i].kind)];
  }

  lemma {:induction false} PendingNew(ts: seq<Token>, i: nat, open: seq<nat>)
    requires i < |ts| && AreOpen(ts, i, open) && Opens(ts[i].kind)
    ensures Pending(ts, i + 1, open + [i], |open|, ValueBlock(|ts|, -1, ""))
  {
    assert (open + [i])[|open|..] == [i];
    assert Closers(ts, [i]) == [ExpectedClosing(ts[i].kind)];
  }

  lemma {:induction false} PendingClosed(ts: seq<Token>, i: nat, open: seq<nat>, k: nat, block: ValueBlock)
    requires i < |ts| && AreOpen(ts, i, open) && k < |open| - 1 && Pending(ts, i, open, k, block)
    requires ts[i].kind == ExpectedClosing(ts[open[|open| - 1]].kind)
    ensures Pending(ts, i + 1, open[..|open| - 1], k, block)
  {
    assert PendingFor(ts, i, open, k, block);
    var stack := Closers(ts, open[k..]);
    assert open[..|open| - 1][k..] == open[k..][..|open| - 1 - k];
    assert Closers(ts, open[..|open| - 1][k..]) == stack[..|stack| - 1];
    assert stack[|stack| - 1] == ts[i].kind;
  }

  /** The matching closer ends the innermost block. */
  lemma {:induction false} TopClosed(ts: seq<Token>, i: nat, open: seq<nat>, block: ValueBlock)
    requires i < |ts| && AreOpen(ts, i, open) && open != [] && Pending(ts, i, open, |open| - 1, block)
    requires ts[i].kind == ExpectedClosing(ts[open[|open| - 1]].kind)
    ensures ClosingOf(ts, open[|open| - 1]) == i && CommaOf(ts, open[|open| - 1]) == block.comma
  {
    var top := |open| - 1;
    assert PendingFor(ts, i, open, top, block);
    assert open[top..] == [open[top]];
    assert Closers(ts, [open[top]]) == [ts[i].kind];
  }

  /** A token that neither opens nor closes leaves the blocks as they are, but
      may be the first comma of the innermost one. */
  lemma {:induction false} PendingSame(ts: seq<Token>, i: nat, open: seq<nat>, k: nat, block: ValueBlock)
    requires i < |ts| && AreOpen(ts, i, open) && k < |open| && Pending(ts, i, open, k, block)
    requires !Opens(ts[i].kind) && ts[i].kind != ExpectedClosing(ts[open[|open| - 1]].kind)
    ensures Pending(ts, i + 1, open, k,
                    if ts[i].kind == Comma && k == |open| - 1 && block.comma < 0 then block.(comma := i) else block)
  {
    assert PendingFor(ts, i, open, k, block);
    var stack := Closers(ts, open[k..]);
    assert stack[|stack| - 1] == ExpectedClosing(ts[open[|open| - 1]].kind);
  }

  /** The openers before `i` that are no longer open are recorded as scanned. */
  ghost predicate Recorded(ts: seq<Token>, i: nat, open: seq<nat>, blocks: seq<ValueBlock>)
    requires AreOpen(ts, i, open) && |blocks| == |ts|
  {
    && (forall k, l :: 0 <= k < l < |open| ==> open[k] < open[l])
    && (forall k :: 0 <= k < |open| ==> Pending(ts, i, open, k, blocks[open[k]]))
    && (forall o {:trigger Scanned(ts, o, blocks[o])} :: 0 <= o < i && Opens(ts[o].kind) && o !in open ==>
        Scanned(ts, o, blocks[o]))
  }

  ghost predicate Scanned(ts: seq<Token>, o: nat, block: ValueBlock)
    requires o < |ts| && Opens(ts[o].kind)
  {
    block.end == ClosingOf(ts, o) && block.comma == CommaOf(ts, o)
  }

  /** One pass gives every opener the end that a scan of its own would find. */
  method IndexBlocks(ts: seq<Token>) returns (blocks: seq<ValueBlock>)
    ensures |blocks| == |ts| && forall o {:trigger Scanned(ts, o, blocks[o])} ::
              0 <= o < |ts| && Opens(ts[o].kind) ==> Scanned(ts, o, blocks[o])
  {
    blocks := seq(|ts|, _ => ValueBlock(0, 0, ""));
    var stack: seq<nat> := [];
    for i := 0 to |ts|
      invariant |blocks| == |ts| && AreOpen(ts, i, stack) && Recorded(ts, i, stack, blocks)
    {
      stack, blocks := IndexToken(ts, i, stack, blocks);
    }
    forall o | 0 <= o < |ts| && Opens(ts[o].kind)
      ensures Scanned(ts, o, blocks[o])
    {
      if o in stack {
        var k :| 0 <= k < |stack| && stack[k] == o;
        assert PendingFor(ts, |ts|, stack, k, blocks[stack[k]]);
      }
    }
  }

  lemma {:induction false} RecordedOpened(ts: seq<Token>, i: nat, open: seq<nat>, blocks: seq<ValueBlock>)
    requires i < |ts| && |blocks| == |ts| && AreOpen(ts, i, open) && Recorded(ts, i, open, blocks) && Opens(ts[i].kind)
    ensures Recorded(ts, i + 1, open + [i], blocks[i := ValueBlock(|ts|, -1, "")])
  {
    var stack, after := open + [i], blocks[i := ValueBlock(|ts|, -1, "")];
    forall k | 0 <= k < |stack|
      ensures Pending(ts, i + 1, stack, k, after[stack[k]])
    {
      if k < |open| {
        PendingOpened(ts, i, open, k, blocks[open[k]]);
      } else {
        PendingNew(ts, i, open);
      }
    }
    forall o | 0 <= o < i + 1 && Opens(ts[o].kind) && o !in stack
      ensures Scanned(ts, o, after[o])
    {
      assert stack[|open|] == i;
      assert o !in open by {
        assert forall k :: 0 <= k < |open| ==> stack[k] == open[k];
      }
    }
  }

  lemma {:induction false} RecordedClosed(ts: seq<Token>, i: nat, open: seq<nat>, blocks: seq<ValueBlock>)
    requires i < |ts| && |blocks| == |ts| && AreOpen(ts, i, open) && Recorded(ts, i, open, blocks)
    requires open != [] && ts[i].kind == ExpectedClosing(ts[open[|open| - 1]].kind)
    ensures var top := open[|open| - 1]; Recorded(ts, i + 1, open[..|open| - 1], blocks[top := blocks[top].(end := i)])
  {
    var top, stack := open[|open| - 1], open[..|open| - 1];
    var after := blocks[top := blocks[top].(end := i)];
    forall k | 0 <= k < |stack|
      ensures Pending(ts, i + 1, stack, k, after[stack[k]])
    {
      assert stack[k] == open[k] && open[k] < top;
      PendingClosed(ts, i, open, k, blocks[open[k]]);
    }
    TopClosed(ts, i, open, blocks[top]);
    forall o | 0 <= o < i + 1 && Opens(ts[o].kind) && o !in stack && o != top
      ensures Scanned(ts, o, after[o])
    {
      LastOr(open, o);
    }
  }

  lemma {:induction false} LastOr(open: seq<nat>, o: nat)
    requires open != [] && o !in open[..|open| - 1] && o != open[|open| - 1]
    ensures o !in open
  {
    assert open == open[..|open| - 1] + [open[|open| - 1]];
  }

  lemma {:induction false} RecordedSame(ts: seq<Token>, i: nat, open: seq<nat>, blocks: seq<ValueBlock>)
    requires i < |ts| && |blocks| == |ts| && AreOpen(ts, i, open) && Recorded(ts, i, open, blocks)
    requires !Opens(ts[i].kind) && (open != [] ==> ts[i].kind != ExpectedClosing(ts[open[|open| - 1]].kind))
    ensures if open != [] && ts[i].kind == Comma && blocks[open[|open| - 1]].comma < 0
            then Recorded(ts, i + 1, open, blocks[open[|open| - 1] := blocks[open[|open| - 1]].(comma := i)])
            else Recorded(ts, i + 1, open, blocks)
  {
    var comma := open != [] && ts[i].kind == Comma && blocks[open[|open| - 1]].comma < 0;
    var after := if comma then blocks[open[|open| - 1] := blocks[open[|open| - 1]].(comma := i)] else blocks;
    forall k | 0 <= k < |open|
      ensures Pending(ts, i + 1, open, k, after[open[k]])
    {
      assert k < |open| - 1 ==> open[k] < open[|open| - 1];
      PendingSame(ts, i, open, k, blocks[open[k]]);
    }
  }

  method IndexToken(ts: seq<Token>, i: nat, open: seq<nat>, before: seq<ValueBlock>)
    returns (stack: seq<nat>, blocks: seq<ValueBlock>)
    requires i < |ts| && |before| == |ts| && AreOpen(ts, i, open) && Recorded(ts, i, open, before)
    ensures |blocks| == |ts| && AreOpen(ts, i + 1, stack) && Recorded(ts, i + 1, stack, blocks)
  {
    stack, blocks := open, before;
    var t := ts[i];
    if Opens(t.kind) {
      RecordedOpened(ts, i, open, before);
      blocks := blocks[i := ValueBlock(|ts|, -1, "")];
      stack := stack + [i];
    } else if |stack| > 0 {
      var top := stack[|stack| - 1];
      if t.kind == ExpectedClosing(ts[top].kind) {
        RecordedClosed(ts, i, open, before);
        blocks := blocks[top := blocks[top].(end := i)];
        stack := stack[..|stack| - 1];
      } else {
        RecordedSame(ts, i, open, before);
        if t.kind == Comma && blocks[top].comma < 0 {
          blocks := blocks[top := blocks[top].(comma := i)];
        }
      }
    } else {
      RecordedSame(ts, i, open, before);
    }
  }
}
