/** Math functions: the grammar walked by precedence climbing, and the value of
    an expression tree that it must compute. */
module Calculations {
  import opened Optional
  import opened CustomProperties

  const MAX_NESTING := 256

  datatype Operator = Plus | Minus | Times | Over

  datatype MathFunction = Calc | Min | Max | Clamp

  /** A number, or a length in pixels. */
  datatype Quantity = Quantity(n: real, length: bool)

  const NOTHING := Quantity(0.0, false)

  /** `Value` is a number, percentage or dimension, already scaled for the
      element; its status says whether it is usable there. */
  datatype MathToken =
    | Sign(op: Operator)
    | Open(fn: MathFunction)
    | Parenthesis
    | UnknownFunction
    | Close
    | Separator
    | Value(q: Quantity, status: Status)
    | Identifier
    | Whitespace
    | Comment
    | Foreign

  function Priority(op: Operator): nat {
    if op == Plus || op == Minus then 1 else 2
  }

  /** The priority of a leading operator, 0 without one. */
  function LeadPriority(ts: seq<MathToken>): nat {
    if ts != [] && ts[0].Sign? then Priority(ts[0].op) else 0
  }

  predicate IsSpace(t: MathToken) {
    t.Whitespace? || t.Comment?
  }

  /** The tokens that are not space. */
  function Strip(ts: seq<MathToken>): seq<MathToken> {
    if ts == [] then [] else (if IsSpace(ts[0]) then [] else [ts[0]]) + Strip(ts[1..])
  }

  /* The walk, on tokens without space. */

  datatype Step = Step(q: Quantity, rest: seq<MathToken>, status: Status)

  function LeastOf(x: real, y: real): real {
    if x < y then x else y
  }

  function GreatestOf(x: real, y: real): real {
    if x > y then x else y
  }

  /** An operation on well-typed operands. */
  function Operation(op: Operator, x: Quantity, y: Quantity): Option<Quantity> {
    match op
    case Plus => if x.length == y.length then Some(Quantity(x.n + y.n, x.length)) else None
    case Minus => if x.length == y.length then Some(Quantity(x.n - y.n, x.length)) else None
    case Times => if x.length && y.length then None else Some(Quantity(x.n * y.n, x.length || y.length))
    case Over => if y.length || y.n == 0.0 then None else Some(Quantity(x.n / y.n, x.length))
  }

  /** One operation; a failure replaces whatever status there was. */
  function Combined(op: Operator, left: Quantity, right: Step): Step {
    var result := Operation(op, left, right.q);
    if result.Some? then right.(q := result.value)
    else right.(q := left, status := if op == Plus || op == Minus then ValueInvalid else ValueUnsupported)
  }

  function ExprOf(ts: seq<MathToken>, min: nat, depth: nat): (s: Step)
    ensures |s.rest| <= |ts| && (ts != [] ==> |s.rest| < |ts|)
    decreases |ts|, 3
  {
    Climb(AtomOf(ts, depth), min, depth)
  }

  /** Take operators of at least priority `min`, left to right. */
  function Climb(left: Step, min: nat, depth: nat): (s: Step)
    ensures |s.rest| <= |left.rest|
    decreases |left.rest|, 1
  {
    if left.status != ValueResolved || LeadPriority(left.rest) == 0 || LeadPriority(left.rest) < min then left
    else
      var op := left.rest[0].op;
      var right := ExprOf(left.rest[1..], Priority(op) + 1, depth);
      Climb(Combined(op, left.q, right), min, depth)
  }

  function AtomOf(ts: seq<MathToken>, depth: nat): (s: Step)
    ensures |s.rest| <= |ts| && (ts != [] ==> |s.rest| < |ts|)
    decreases |ts|, 2
  {
    if ts == [] then Step(NOTHING, [], ValueInvalid)
    else
      var rest := ts[1..];
      match ts[0]
      case Open(fn) => if depth + 1 > MAX_NESTING then Step(NOTHING, rest, ValueUnsupported)
          else CallOf(rest, fn, [], depth + 1)
      case Parenthesis => if depth + 1 > MAX_NESTING then Step(NOTHING, rest, ValueUnsupported)
          else CallOf(rest, Calc, [], depth + 1)
      case UnknownFunction => Step(NOTHING, rest, ValueUnsupported)
      case Value(q, status) => Step(q, rest, status)
      case Identifier => Step(NOTHING, rest, ValueUnsupported)
      case _ => Step(NOTHING, rest, ValueInvalid)
  }

  /** The arguments after `args`, up to the closing parenthesis. */
  function CallOf(ts: seq<MathToken>, fn: MathFunction, args: seq<Quantity>, depth: nat): (s: Step)
    ensures |s.rest| <= |ts|
    decreases |ts|, 4
  {
    var arg := ExprOf(ts, 0, depth);
    if arg.status != ValueResolved then arg.(q := NOTHING)
    else
      var all := args + [arg.q];
      if arg.rest == [] then Finished(fn, all, [], ValueInvalid)
      else if arg.rest[0].Close? then Finished(fn, all, arg.rest[1..], ValueResolved)
      else if arg.rest[0].Separator? then CallOf(arg.rest[1..], fn, all, depth)
      else Finished(fn, all, arg.rest[1..], ValueInvalid)
  }

  predicate SameKind(args: seq<Quantity>) {
    forall i :: 0 <= i < |args| ==> args[i].length == args[0].length
  }

  function Least(args: seq<Quantity>): real
    requires args != []
  {
    if |args| == 1 then args[0].n else LeastOf(Least(args[..|args| - 1]), args[|args| - 1].n)
  }

  function Greatest(args: seq<Quantity>): real
    requires args != []
  {
    if |args| == 1 then args[0].n else GreatestOf(Greatest(args[..|args| - 1]), args[|args| - 1].n)
  }

  function Folded(fn: MathFunction, args: seq<Quantity>): Quantity
    requires args != []
  {
    match fn
    case Calc => args[0]
    case Min => args[0].(n := Least(args))
    case Max => args[0].(n := Greatest(args))
    case Clamp => if |args| == 3 then args[0].(n := GreatestOf(args[0].n, LeastOf(args[1].n, args[2].n))) else args[0]
  }

  predicate Arity(fn: MathFunction, count: nat) {
    match fn
    case Calc => count == 1
    case Clamp => count == 3
    case _ => count >= 1
  }

  function Finished(fn: MathFunction, args: seq<Quantity>, rest: seq<MathToken>, status: Status): Step
    requires args != []
  {
    Step(Folded(fn, args), rest, if !SameKind(args) || !Arity(fn, |args|) then ValueInvalid else status)
  }

  /* Expression trees. */

  datatype Expr =
    | Literal(q: Quantity)
    | Binary(op: Operator, left: Expr, right: Expr)
    | Call(fn: MathFunction, args: Exprs)
    | Group(inner: Expr)

  datatype Exprs = Nil | Cons(head: Expr, tail: Exprs)

  /** The value of a well-typed expression. */
  function Meaning(e: Expr): Option<Quantity> {
    match e
    case Literal(q) => Some(q)
    case Binary(op, l, r) =>
      var x, y := Meaning(l), Meaning(r);
      if x.None? || y.None? then None else Operation(op, x.value, y.value)
    case Call(fn, args) =>
      var values := Meanings(args);
      if values.None? || !Arity(fn, |values.value|) || !SameKind(values.value) then None
      else Some(Folded(fn, values.value))
    case Group(inner) => Meaning(inner)
  }

  function Meanings(es: Exprs): Option<seq<Quantity>> {
    if es.Nil? then Some([])
    else
      var x, xs := Meaning(es.head), Meanings(es.tail);
      if x.None? || xs.None? then None else Some([x.value] + xs.value)
  }

  /** The tokens of an expression where operators below priority `min` need
      parentheses. */
  function Printed(e: Expr, min: nat): seq<MathToken>
    decreases e, 1
  {
    match e
    case Literal(q) => [Value(q, ValueResolved)]
    case Binary(op, l, r) =>
      if Priority(op) < min then Grouped(PrintedBinary(op, l, r)) else PrintedBinary(op, l, r)
    case Call(fn, args) => [Open(fn)] + PrintedArgs(args)
    case Group(inner) => Grouped(Printed(inner, 0))
  }

  function Grouped(ts: seq<MathToken>): seq<MathToken> {
    [Parenthesis] + (ts + [Close])
  }

  function PrintedBinary(op: Operator, l: Expr, r: Expr): seq<MathToken>
    decreases Binary(op, l, r), 0
  {
    Printed(l, Priority(op)) + ([Sign(op)] + Printed(r, Priority(op) + 1))
  }

  /** Arguments with their separators and the closing parenthesis. */
  function PrintedArgs(es: Exprs): seq<MathToken>
    decreases es, 0
  {
    if es.Nil? then [Close]
    else if es.tail.Nil? then Printed(es.head, 0) + [Close]
    else Printed(es.head, 0) + ([Separator] + PrintedArgs(es.tail))
  }

  /** How deep the parentheses of the printed expression go. */
  function Nesting(e: Expr, min: nat): nat {
    match e
    case Literal(_) => 0
    case Binary(op, l, r) =>
      (if Priority(op) < min then 1 else 0) + Deeper(Nesting(l, Priority(op)), Nesting(r, Priority(op) + 1))
    case Call(_, args) => 1 + NestingOfArgs(args)
    case Group(inner) => 1 + Nesting(inner, 0)
  }

  function Deeper(x: nat, y: nat): nat {
    if x > y then x else y
  }

  function NestingOfArgs(es: Exprs): nat {
    if es.Nil? then 0 else Deeper(Nesting(es.head, 0), NestingOfArgs(es.tail))
  }

  /* Round trip. */

  /** Walking a printed expression yields its value and goes on after it. */
  lemma {:induction false} WalksPrinted(e: Expr, m: nat, min: nat, depth: nat, rest: seq<MathToken>)
    requires Meaning(e).Some? && min <= m && depth + Nesting(e, m) <= MAX_NESTING && LeadPriority(rest) <= m
    ensures ExprOf(Printed(e, m) + rest, min, depth) == Climb(Step(Meaning(e).value, rest, ValueResolved), min, depth)
    decreases e, 1, 0
  {
    match e
    case Literal(q) =>
      assert (Printed(e, m) + rest)[1..] == rest;
    case Binary(op, l, r) =>
      if Priority(op) < m {
        WalksBinary(op, l, r, 0, depth + 1, [Close] + rest);
        WalksGroup(PrintedBinary(op, l, r), Meaning(e).value, depth, rest);
      } else {
        WalksBinary(op, l, r, min, depth, rest);
      }
    case Call(fn, args) =>
      WalksCall(fn, args, depth, rest);
    case Group(inner) =>
      WalksPrinted(inner, 0, 0, depth + 1, [Close] + rest);
      WalksGroup(Printed(inner, 0), Meaning(e).value, depth, rest);
  }

  /** Parentheses give what is inside them. */
  lemma {:induction false} WalksGroup(ts: seq<MathToken>, q: Quantity, depth: nat, rest: seq<MathToken>)
    requires depth + 1 <= MAX_NESTING
    requires ExprOf(ts + ([Close] + rest), 0, depth + 1) == Climb(Step(q, [Close] + rest, ValueResolved), 0, depth + 1)
    ensures AtomOf(Grouped(ts) + rest, depth) == Step(q, rest, ValueResolved)
  {
    var inside := ts + ([Close] + rest);
    ClosesCall(inside, Calc, [], depth + 1, q, rest);
    assert Grouped(ts) + rest == [Parenthesis] + inside;
    assert ([Parenthesis] + inside)[1..] == inside && [] + [q] == [q];
  }

  lemma {:induction false} WalksCall(fn: MathFunction, args: Exprs, depth: nat, rest: seq<MathToken>)
    requires Meaning(Call(fn, args)).Some? && depth + 1 + NestingOfArgs(args) <= MAX_NESTING
    ensures AtomOf([Open(fn)] + PrintedArgs(args) + rest, depth) ==
            Step(Meaning(Call(fn, args)).value, rest, ValueResolved)
    decreases Call(fn, args), 0, 1
  {
    var inside, values := PrintedArgs(args) + rest, Meanings(args).value;
    WalksArgs(fn, args, [], depth + 1, rest);
    assert [Open(fn)] + PrintedArgs(args) + rest == [Open(fn)] + inside;
    assert ([Open(fn)] + inside)[1..] == inside && [] + values == values;
  }

  lemma {:induction false} WalksBinary(op: Operator, l: Expr, r: Expr, min: nat, depth: nat, rest: seq<MathToken>)
    requires Meaning(Binary(op, l, r)).Some? && min <= Priority(op) && LeadPriority(rest) <= Priority(op)
    requires depth + Deeper(Nesting(l, Priority(op)), Nesting(r, Priority(op) + 1)) <= MAX_NESTING
    ensures ExprOf(PrintedBinary(op, l, r) + rest, min, depth) ==
            Climb(Step(Meaning(Binary(op, l, r)).value, rest, ValueResolved), min, depth)
    decreases Binary(op, l, r), 0, 0
  {
    var p, x := Priority(op), Meaning(l).value;
    var right := Printed(r, p + 1) + rest;
    assert PrintedBinary(op, l, r) + rest == Printed(l, p) + ([Sign(op)] + right);
    WalksPrinted(l, p, min, depth, [Sign(op)] + right);
    WalksPrinted(r, p + 1, p + 1, depth, rest);
    TakesOperator(x, op, right, min, depth, Step(Meaning(r).value, rest, ValueResolved));
  }

  /** An operator of sufficient priority takes the operand after it. */
  lemma {:induction false} TakesOperator(x: Quantity, op: Operator, ts: seq<MathToken>, min: nat, depth: nat,
                                         right: Step)
    requires min <= Priority(op) && right.status == ValueResolved && LeadPriority(right.rest) <= Priority(op)
    requires ExprOf(ts, Priority(op) + 1, depth) == Climb(right, Priority(op) + 1, depth)
    ensures Climb(Step(x, [Sign(op)] + ts, ValueResolved), min, depth) == Climb(Combined(op, x, right), min, depth)
  {
    assert ([Sign(op)] + ts)[1..] == ts;
  }

  /** An argument followed by the closing parenthesis ends the call. */
  lemma {:induction false} ClosesCall(ts: seq<MathToken>, fn: MathFunction, args: seq<Quantity>, depth: nat,
                                      q: Quantity, rest: seq<MathToken>)
    requires ExprOf(ts, 0, depth) == Climb(Step(q, [Close] + rest, ValueResolved), 0, depth)
    ensures CallOf(ts, fn, args, depth) == Finished(fn, args + [q], rest, ValueResolved)
  {
    assert ([Close] + rest)[1..] == rest;
  }

  lemma {:induction false} WalksArgs(fn: MathFunction, es: Exprs, before: seq<Quantity>, depth: nat,
                                     rest: seq<MathToken>)
    requires es.Cons? && Meanings(es).Some? && depth + NestingOfArgs(es) <= MAX_NESTING
    ensures CallOf(PrintedArgs(es) + rest, fn, before, depth) ==
            Finished(fn, before + Meanings(es).value, rest, ValueResolved)
    decreases es, 0, 0
  {
    var x := Meaning(es.head).value;
    if es.tail.Nil? {
      assert PrintedArgs(es) + rest == Printed(es.head, 0) + ([Close] + rest);
      WalksPrinted(es.head, 0, 0, depth, [Close] + rest);
      ClosesCall(PrintedArgs(es) + rest, fn, before, depth, x, rest);
      assert Meanings(es).value == [x];
    } else {
      var after := [Separator] + (PrintedArgs(es.tail) + rest);
      assert PrintedArgs(es) + rest == Printed(es.head, 0) + after;
      WalksPrinted(es.head, 0, 0, depth, after);
      assert after[1..] == PrintedArgs(es.tail) + rest;
      WalksArgs(fn, es.tail, before + [x], depth, rest);
      assert before + [x] + Meanings(es.tail).value == before + Meanings(es).value;
    }
  }

  /** Every well-typed expression within the nesting limit evaluates to its value. */
  lemma {:induction false} RoundTrip(e: Expr)
    requires Meaning(e).Some? && Nesting(e, 0) <= MAX_NESTING
    ensures ExprOf(Printed(e, 0), 0, 0) == Step(Meaning(e).value, [], ValueResolved)
  {
    assert Printed(e, 0) + [] == Printed(e, 0);
    WalksPrinted(e, 0, 0, 0, []);
  }

  /* Nothing else is accepted. */

  /** The weakest operator outside parentheses; atoms have none. */
  function Top(e: Expr): nat {
    if e.Binary? then Priority(e.op) else 3
  }

  lemma {:induction false} PrintedTight(e: Expr, m: nat)
    requires m <= Top(e)
    ensures Printed(e, m) == Printed(e, 0) && Nesting(e, m) == Nesting(e, 0)
  {
  }

  /** `e` spells what was consumed of `ts` on the way to `s`, and has its value. */
  ghost predicate Spells(e: Expr, ts: seq<MathToken>, s: Step, depth: nat) {
    ts == Printed(e, 0) + s.rest && Meaning(e) == Some(s.q) && depth + Nesting(e, 0) <= MAX_NESTING
  }

  ghost predicate SpellsArgs(es: Exprs, ts: seq<MathToken>, rest: seq<MathToken>, values: seq<Quantity>, depth: nat) {
    es.Cons? && ts == PrintedArgs(es) + rest && Meanings(es) == Some(values) && depth + NestingOfArgs(es) <= MAX_NESTING
  }

  /** A tree for what a resolved walk consumed. */
  lemma {:induction false} ExprIsPrinted(ts: seq<MathToken>, min: nat, depth: nat) returns (e: Expr)
    requires ExprOf(ts, min, depth).status == ValueResolved && depth <= MAX_NESTING && min <= 3
    ensures Spells(e, ts, ExprOf(ts, min, depth), depth) && min <= Top(e)
    ensures LeadPriority(ExprOf(ts, min, depth).rest) == 0 || LeadPriority(ExprOf(ts, min, depth).rest) < min
    decreases |ts|, 3
  {
    var atom := AtomOf(ts, depth);
    assert atom.status != ValueResolved ==> ExprOf(ts, min, depth) == atom;
    var first := AtomIsPrinted(ts, depth);
    e := ClimbIsPrinted(ts, first, atom, min, depth);
  }

  lemma {:induction false} ClimbIsPrinted(ts: seq<MathToken>, first: Expr, left: Step, min: nat, depth: nat)
    returns (e: Expr)
    requires left.status == ValueResolved && Spells(first, ts, left, depth) && depth <= MAX_NESTING
    requires min <= Top(first) && LeadPriority(left.rest) <= Top(first)
    requires Climb(left, min, depth).status == ValueResolved
    ensures Spells(e, ts, Climb(left, min, depth), depth) && min <= Top(e)
    ensures LeadPriority(Climb(left, min, depth).rest) == 0 || LeadPriority(Climb(left, min, depth).rest) < min
    decreases |left.rest|, 1
  {
    if LeadPriority(left.rest) == 0 || LeadPriority(left.rest) < min {
      e := first;
    } else {
      var op, ts' := left.rest[0].op, left.rest[1..];
      var right := ExprOf(ts', Priority(op) + 1, depth);
      var next := Combined(op, left.q, right);
      assert Climb(left, min, depth) == Climb(next, min, depth);
      assert next.status == ValueResolved;
      var r := ExprIsPrinted(ts', Priority(op) + 1, depth);
      SpellsBinary(ts, first, left, op, ts', r, right, depth);
      e := ClimbIsPrinted(ts, Binary(op, first, r), next, min, depth);
    }
  }

  lemma {:induction false} SpellsBinary(ts: seq<MathToken>, l: Expr, left: Step, op: Operator, ts': seq<MathToken>,
                                        r: Expr, right: Step, depth: nat)
    requires Spells(l, ts, left, depth) && left.rest == [Sign(op)] + ts' && Spells(r, ts', right, depth)
    requires Priority(op) <= Top(l) && Priority(op) + 1 <= Top(r) && Operation(op, left.q, right.q).Some?
    ensures Spells(Binary(op, l, r), ts, Combined(op, left.q, right), depth)
  {
    PrintedTight(l, Priority(op));
    PrintedTight(r, Priority(op) + 1);
    assert Printed(l, 0) + ([Sign(op)] + (Printed(r, 0) + right.rest)) ==
           Printed(l, 0) + ([Sign(op)] + Printed(r, 0)) + right.rest;
  }

  lemma {:induction false} AtomIsPrinted(ts: seq<MathToken>, depth: nat) returns (e: Expr)
    requires AtomOf(ts, depth).status == ValueResolved && depth <= MAX_NESTING
    ensures Spells(e, ts, AtomOf(ts, depth), depth) && Top(e) == 3
    decreases |ts|, 2
  {
    var s, rest := AtomOf(ts, depth), ts[1..];
    assert ts == [ts[0]] + rest;
    match ts[0] {
      case Value(q, _) =>
        e := Literal(q);
      case Open(fn) =>
        var es, values := CallIsPrinted(rest, fn, [], depth + 1);
        assert [] + values == values;
        e := Call(fn, es);
        assert [Open(fn)] + (PrintedArgs(es) + s.rest) == [Open(fn)] + PrintedArgs(es) + s.rest;
      case Parenthesis =>
        var es, values := CallIsPrinted(rest, Calc, [], depth + 1);
        assert [] + values == values;
        e := Group(es.head);
        OneArgument(es);
        assert [Parenthesis] + (PrintedArgs(es) + s.rest) == Grouped(Printed(es.head, 0)) + s.rest;
    }
  }

  lemma {:induction false} OneArgument(es: Exprs)
    requires es.Cons? && Meanings(es).Some? && |Meanings(es).value| == 1
    ensures es.tail.Nil? && Meaning(es.head) == Some(Meanings(es).value[0])
  {
  }

  lemma {:induction false} CallIsPrinted(ts: seq<MathToken>, fn: MathFunction, args: seq<Quantity>, depth: nat)
    returns (es: Exprs, values: seq<Quantity>)
    requires CallOf(ts, fn, args, depth).status == ValueResolved && depth <= MAX_NESTING
    ensures SpellsArgs(es, ts, CallOf(ts, fn, args, depth).rest, values, depth)
    ensures CallOf(ts, fn, args, depth).q == Folded(fn, args + values) && Arity(fn, |args + values|) &&
            SameKind(args + values)
    decreases |ts|, 4
  {
    var arg := ExprOf(ts, 0, depth);
    var x := ExprIsPrinted(ts, 0, depth);
    if arg.rest[0].Close? {
      es, values := Cons(x, Nil), [arg.q];
      SpellsLast(ts, x, arg, depth);
    } else {
      var more, others := CallIsPrinted(arg.rest[1..], fn, args + [arg.q], depth);
      es, values := Cons(x, more), [arg.q] + others;
      assert args + [arg.q] + others == args + values;
      SpellsMore(ts, x, arg, more, CallOf(ts, fn, args, depth).rest, others, depth);
    }
  }

  lemma {:induction false} SpellsLast(ts: seq<MathToken>, x: Expr, arg: Step, depth: nat)
    requires Spells(x, ts, arg, depth) && arg.rest != [] && arg.rest[0] == Close
    ensures SpellsArgs(Cons(x, Nil), ts, arg.rest[1..], [arg.q], depth)
  {
    assert arg.rest == [Close] + arg.rest[1..];
    assert Printed(x, 0) + ([Close] + arg.rest[1..]) == Printed(x, 0) + [Close] + arg.rest[1..];
    assert Meanings(Nil) == Some([]) && [arg.q] + [] == [arg.q];
  }

  lemma {:induction false} SpellsMore(ts: seq<MathToken>, x: Expr, arg: Step, more: Exprs, rest: seq<MathToken>,
                                      others: seq<Quantity>, depth: nat)
    requires Spells(x, ts, arg, depth) && arg.rest != [] && arg.rest[0] == Separator
    requires SpellsArgs(more, arg.rest[1..], rest, others, depth)
    ensures SpellsArgs(Cons(x, more), ts, rest, [arg.q] + others, depth)
  {
    assert arg.rest == [Separator] + (PrintedArgs(more) + rest);
    assert Printed(x, 0) + ([Separator] + (PrintedArgs(more) + rest)) ==
           Printed(x, 0) + ([Separator] + PrintedArgs(more)) + rest;
  }

  /** A token list is accepted exactly when it spells a well-typed expression
      within the nesting limit, and then has that expression's value. */
  lemma {:induction false} AcceptsExactly(ts: seq<MathToken>, q: Quantity)
    ensures ExprOf(ts, 0, 0) == Step(q, [], ValueResolved) <==>
            exists e :: ts == Printed(e, 0) && Meaning(e) == Some(q) && Nesting(e, 0) <= MAX_NESTING
  {
    if ExprOf(ts, 0, 0) == Step(q, [], ValueResolved) {
      var e := ExprIsPrinted(ts, 0, 0);
      assert ts == Printed(e, 0);
    }
    if e :| ts == Printed(e, 0) && Meaning(e) == Some(q) && Nesting(e, 0) <= MAX_NESTING {
      RoundTrip(e);
    }
  }
}
