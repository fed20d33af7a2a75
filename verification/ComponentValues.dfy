/** The nesting of component values, read off a flat token list. */
module ComponentValues {
  import opened ValueBlocks

  /* Stacks of open blocks. */

  /** Blocks on top of others close first; the others then go on as before. */
  lemma {:induction false} StackSplit(ts: seq<Token>, i: nat, below: seq<Kind>, above: seq<Kind>)
    requires i <= |ts| && below != [] && above != []
    ensures var e := CloseFrom(ts, i, above);
            CloseFrom(ts, i, below + above) == if e < |ts| then CloseFrom(ts, e + 1, below) else |ts|
    decreases |ts| - i
  {
    if i < |ts| {
      var next := AdvanceDelimiters(above, ts[i].kind).0;
      AdvanceAbove(below, above, ts[i].kind);
      if next == [] {
        assert below + next == below;
      } else {
        StackSplit(ts, i + 1, below, next);
      }
    }
  }

  /** Commas of the blocks on top are not commas of the others. */
  lemma {:induction false} StackSplitComma(ts: seq<Token>, i: nat, below: seq<Kind>, above: seq<Kind>)
    requires i <= |ts| && below != [] && above != []
    ensures var e := CloseFrom(ts, i, above);
            CommaFrom(ts, i, below + above) == if e < |ts| then CommaFrom(ts, e + 1, below) else -1
    decreases |ts| - i
  {
    if i < |ts| {
      var next := AdvanceDelimiters(above, ts[i].kind).0;
      AdvanceAbove(below, above, ts[i].kind);
      assert |below + above| > 1;
      if next == [] {
        assert below + next == below;
        assert ts[i].kind != Comma;
      } else {
        StackSplitComma(ts, i + 1, below, next);
      }
    }
  }

  /** Only the top of the stack matters to a token. */
  lemma {:induction false} AdvanceAbove(below: seq<Kind>, above: seq<Kind>, kind: Kind)
    requires above != []
    ensures AdvanceDelimiters(below + above, kind).0 == below + AdvanceDelimiters(above, kind).0
  {
    var both := below + above;
    assert both[|both| - 1] == above[|above| - 1];
    if Opens(kind) {
      assert both + [ExpectedClosing(kind)] == below + (above + [ExpectedClosing(kind)]);
    } else {
      assert both[..|both| - 1] == below + above[..|above| - 1];
    }
  }

  /** Anywhere inside a block some stack describes what is still open. */
  lemma {:induction false} StackInside(ts: seq<Token>, o: nat, p: nat) returns (stack: seq<Kind>)
    requires o < p <= |ts| && Opens(ts[o].kind) && p <= ClosingOf(ts, o)
    ensures stack != [] && ClosingOf(ts, o) == CloseFrom(ts, p, stack)
    decreases p
  {
    if p == o + 1 {
      stack := [ExpectedClosing(ts[o].kind)];
    } else {
      var before := StackInside(ts, o, p - 1);
      stack := AdvanceDelimiters(before, ts[p - 1].kind).0;
    }
  }

  /** Ranges that cut through no block. */
  ghost predicate Nested(ts: seq<Token>, from: nat, to: nat) {
    to <= |ts| && forall o {:trigger ClosingOf(ts, o)} :: from <= o < to && Opens(ts[o].kind) ==>
        ClosingOf(ts, o) < to || ClosingOf(ts, o) == to == |ts|
  }

  /** A block ends inside the block around it, or with the input. */
  lemma {:induction false} BlockInside(ts: seq<Token>, o: nat, p: nat)
    requires o < p < |ts| && Opens(ts[o].kind) && Opens(ts[p].kind) && p < ClosingOf(ts, o)
    ensures ClosingOf(ts, p) < ClosingOf(ts, o) || ClosingOf(ts, p) == ClosingOf(ts, o) == |ts|
  {
    var stack := StackInside(ts, o, p);
    StackSplit(ts, p + 1, stack, [ExpectedClosing(ts[p].kind)]);
  }

  lemma {:induction false} NestedBody(ts: seq<Token>, o: nat, from: nat)
    requires o < |ts| && Opens(ts[o].kind) && o < from
    ensures Nested(ts, from, ClosingOf(ts, o))
  {
    forall p | from <= p < ClosingOf(ts, o) && Opens(ts[p].kind)
      ensures ClosingOf(ts, p) < ClosingOf(ts, o) || ClosingOf(ts, p) == ClosingOf(ts, o) == |ts|
    {
      BlockInside(ts, o, p);
    }
  }

  /* The tree. */

  /** A token, or a block with its tokens inside; a block that the end of the
      input closes has no closer. */
  datatype Component = Leaf(token: Token) | Block(open: Token, body: Components, closer: seq<Token>)

  datatype Components = Nil | Cons(head: Component, tail: Components)

  function Append(xs: Components, ys: Components): Components {
    if xs.Nil? then ys else Cons(xs.head, Append(xs.tail, ys))
  }

  /** Where the body of the block opened at `from` ends in a range. */
  ghost function Stop(ts: seq<Token>, from: nat, to: nat): (stop: nat)
    requires from < to <= |ts| && Opens(ts[from].kind)
    ensures from < stop <= to
  {
    if ClosingOf(ts, from) < to then ClosingOf(ts, from) else to
  }

  /** Where the component at `from` ends in a range. */
  ghost function After(ts: seq<Token>, from: nat, to: nat): (after: nat)
    requires from < to <= |ts|
    ensures from < after <= to
  {
    if !Opens(ts[from].kind) then from + 1
    else if Stop(ts, from, to) < to then Stop(ts, from, to) + 1
    else to
  }

  /** The components of a range. */
  ghost function Parsed(ts: seq<Token>, from: nat, to: nat): Components
    requires from <= to <= |ts|
    decreases |ts| - from, 1
  {
    if from == to then Nil else Cons(First(ts, from, to), Parsed(ts, After(ts, from, to), to))
  }

  ghost function First(ts: seq<Token>, from: nat, to: nat): Component
    requires from < to <= |ts|
    decreases |ts| - from, 0
  {
    if !Opens(ts[from].kind) then Leaf(ts[from])
    else
      var stop := Stop(ts, from, to);
      Block(ts[from], Parsed(ts, from + 1, stop), if stop < to then [ts[stop]] else [])
  }

  /** The tokens of a component. */
  ghost function Tokens(c: Component): seq<Token> {
    match c
    case Leaf(t) => [t]
    case Block(open, body, closer) => [open] + AllTokens(body) + closer
  }

  ghost function AllTokens(cs: Components): seq<Token> {
    if cs.Nil? then [] else Tokens(cs.head) + AllTokens(cs.tail)
  }

  /** Nothing is lost or moved: the tree reads back as the tokens. */
  lemma {:induction false} ParsedReadsBack(ts: seq<Token>, from: nat, to: nat)
    requires from <= to <= |ts|
    ensures AllTokens(Parsed(ts, from, to)) == ts[from..to]
    decreases |ts| - from, 1
  {
    if from < to {
      var after := After(ts, from, to);
      FirstReadsBack(ts, from, to);
      ParsedReadsBack(ts, after, to);
      assert ts[from..to] == ts[from..after] + ts[after..to];
    }
  }

  lemma {:induction false} FirstReadsBack(ts: seq<Token>, from: nat, to: nat)
    requires from < to <= |ts|
    ensures Tokens(First(ts, from, to)) == ts[from..After(ts, from, to)]
    decreases |ts| - from, 0
  {
    if Opens(ts[from].kind) {
      var stop := Stop(ts, from, to);
      ParsedReadsBack(ts, from + 1, stop);
      BlockSlices(ts, from, stop, to);
    }
  }

  lemma {:induction false} BlockSlices(ts: seq<Token>, from: nat, stop: nat, to: nat)
    requires from < stop <= to <= |ts|
    ensures [ts[from]] + ts[from + 1..stop] == ts[from..stop]
    ensures stop < to ==> [ts[from]] + ts[from + 1..stop] + [ts[stop]] == ts[from..stop + 1]
    ensures ts[from..stop] + [] == ts[from..stop]
  {
  }

  /** A component within a nested range does not depend on what follows. */
  lemma {:induction false} SameFirst(ts: seq<Token>, a: nat, b: nat, c: nat)
    requires a < b <= c <= |ts| && Nested(ts, a, b)
    ensures First(ts, a, c) == First(ts, a, b) && After(ts, a, c) == After(ts, a, b)
  {
  }

  lemma {:induction false} ParsedSplit(ts: seq<Token>, a: nat, b: nat, c: nat)
    requires a <= b <= c <= |ts| && Nested(ts, a, b)
    ensures Parsed(ts, a, c) == Append(Parsed(ts, a, b), Parsed(ts, b, c))
    decreases |ts| - a
  {
    if a < b {
      NestedAfter(ts, a, b);
      SameFirst(ts, a, b, c);
      ParsedSplit(ts, After(ts, a, b), b, c);
    }
  }

  lemma {:induction false} NestedAfter(ts: seq<Token>, a: nat, b: nat)
    requires a < b <= |ts| && Nested(ts, a, b)
    ensures Nested(ts, After(ts, a, b), b)
  {
  }

  predicate IsComma(c: Component) {
    c.Leaf? && c.token.kind == Comma
  }

  predicate NoComma(cs: Components) {
    cs.Nil? || (!IsComma(cs.head) && NoComma(cs.tail))
  }

  /** The recorded comma is the first one directly inside the block. */
  lemma {:induction false} FirstComma(ts: seq<Token>, p: nat, closer: Kind)
    requires p <= |ts| && IsClosing(closer)
    ensures CommaFound(ts, p, closer)
    decreases |ts| - p
  {
    if p < |ts| && Opens(ts[p].kind) {
      PastBlock(ts, p, closer);
      if ClosingOf(ts, p) < |ts| {
        FirstComma(ts, ClosingOf(ts, p) + 1, closer);
        SkippedBlock(ts, p, closer);
      } else {
        LastBlock(ts, p, closer);
      }
    } else if p < |ts| && ts[p].kind != Comma && ts[p].kind != closer {
      FirstComma(ts, p + 1, closer);
      SkippedLeaf(ts, p, closer);
    } else {
      NothingSkipped(ts, p, closer);
    }
  }

  lemma {:induction false} PastBlock(ts: seq<Token>, p: nat, closer: Kind)
    requires p < |ts| && Opens(ts[p].kind)
    ensures CloseFrom(ts, p, [closer]) == if ClosingOf(ts, p) < |ts|
            then CloseFrom(ts, ClosingOf(ts, p) + 1, [closer]) else |ts|
    ensures CommaFrom(ts, p, [closer]) == if ClosingOf(ts, p) < |ts|
            then CommaFrom(ts, ClosingOf(ts, p) + 1, [closer]) else -1
  {
    StackSplit(ts, p + 1, [closer], [ExpectedClosing(ts[p].kind)]);
    StackSplitComma(ts, p + 1, [closer], [ExpectedClosing(ts[p].kind)]);
    assert [closer] + [ExpectedClosing(ts[p].kind)] == [closer, ExpectedClosing(ts[p].kind)];
  }

  lemma {:induction false} LastBlock(ts: seq<Token>, p: nat, closer: Kind)
    requires p < |ts| && Opens(ts[p].kind) && ClosingOf(ts, p) == |ts|
    requires CloseFrom(ts, p, [closer]) == |ts| && CommaFrom(ts, p, [closer]) == -1
    ensures CommaFound(ts, p, closer)
  {
    assert After(ts, p, |ts|) == |ts|;
  }

  lemma {:induction false} NothingSkipped(ts: seq<Token>, p: nat, closer: Kind)
    requires p <= |ts| && IsClosing(closer) && (p == |ts| || ts[p].kind == Comma || ts[p].kind == closer)
    ensures CommaFound(ts, p, closer)
  {
  }

  ghost predicate CommaFound(ts: seq<Token>, p: nat, closer: Kind)
    requires p <= |ts|
  {
    var end, comma := CloseFrom(ts, p, [closer]), CommaFrom(ts, p, [closer]);
    if comma < 0 then NoComma(Parsed(ts, p, end))
    else p <= comma < end && ts[comma].kind == Comma && Nested(ts, p, comma) && NoComma(Parsed(ts, p, comma))
  }

  lemma {:induction false} SkippedBlock(ts: seq<Token>, p: nat, closer: Kind)
    requires p < |ts| && Opens(ts[p].kind) && ClosingOf(ts, p) < |ts| && CommaFound(ts, ClosingOf(ts, p) + 1, closer)
    requires CloseFrom(ts, p, [closer]) == CloseFrom(ts, ClosingOf(ts, p) + 1, [closer])
    requires CommaFrom(ts, p, [closer]) == CommaFrom(ts, ClosingOf(ts, p) + 1, [closer])
    ensures CommaFound(ts, p, closer)
  {
    var end, comma := CloseFrom(ts, p, [closer]), CommaFrom(ts, p, [closer]);
    var to := if comma < 0 then end else comma;
    assert After(ts, p, to) == ClosingOf(ts, p) + 1;
    if comma >= 0 {
      NestedWider(ts, p, ClosingOf(ts, p), comma);
    }
  }

  lemma {:induction false} SkippedLeaf(ts: seq<Token>, p: nat, closer: Kind)
    requires p < |ts| && !Opens(ts[p].kind) && ts[p].kind != Comma && CommaFound(ts, p + 1, closer)
    requires CloseFrom(ts, p, [closer]) == CloseFrom(ts, p + 1, [closer])
    requires CommaFrom(ts, p, [closer]) == CommaFrom(ts, p + 1, [closer])
    ensures CommaFound(ts, p, closer)
  {
    var end, comma := CloseFrom(ts, p, [closer]), CommaFrom(ts, p, [closer]);
    var to := if comma < 0 then end else comma;
    assert After(ts, p, to) == p + 1;
  }

  lemma {:induction false} NestedWider(ts: seq<Token>, p: nat, q: nat, to: nat)
    requires p < |ts| && Opens(ts[p].kind) && q == ClosingOf(ts, p) && q < to && Nested(ts, q + 1, to)
    ensures Nested(ts, p, to)
  {
    NestedBody(ts, p, p + 1);
    assert forall o :: p + 1 <= o < q && Opens(ts[o].kind) ==> ClosingOf(ts, o) < q || ClosingOf(ts, o) == q;
    CloserAt(ts, p);
  }

  /** A block that ends before the input ends there at its closer. */
  lemma {:induction false} CloserAt(ts: seq<Token>, p: nat)
    requires p < |ts| && Opens(ts[p].kind) && ClosingOf(ts, p) < |ts|
    ensures IsClosing(ts[ClosingOf(ts, p)].kind)
  {
    CloserFrom(ts, p + 1, [ExpectedClosing(ts[p].kind)]);
  }

  lemma {:induction false} CloserFrom(ts: seq<Token>, i: nat, stack: seq<Kind>)
    requires i <= |ts| && stack != [] && CloseFrom(ts, i, stack) < |ts|
    ensures IsClosing(ts[CloseFrom(ts, i, stack)].kind)
    decreases |ts| - i
  {
    var next := AdvanceDelimiters(stack, ts[i].kind).0;
    if next != [] {
      CloserFrom(ts, i + 1, next);
    }
  }
}
