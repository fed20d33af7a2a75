/** The cursor-based evaluator of math functions. */
module MathParser {
  import opened CustomProperties
  import opened Calculations
  import opened CalcGrammar

  datatype Property = FontSize | Opacity | OtherProperty

  lemma {:induction false} StripAt(ts: seq<MathToken>, i: nat)
    requires i < |ts|
    ensures Strip(ts[i..]) == (if IsSpace(ts[i]) then [] else [ts[i]]) + Strip(ts[i + 1..])
  {
    assert ts[i..][1..] == ts[i + 1..];
  }

  /** What is kept of the arguments while they are read. */
  function Running(fn: MathFunction, args: seq<Quantity>): Quantity
    requires args != []
  {
    match fn
    case Min => args[0].(n := Least(args))
    case Max => args[0].(n := Greatest(args))
    case _ => args[0]
  }

  lemma {:induction false} RunningNext(fn: MathFunction, args: seq<Quantity>, arg: Quantity)
    ensures args == [] ==> Running(fn, args + [arg]) == arg
    ensures args != [] ==>
              var q := Running(fn, args);
              Running(fn, args + [arg]) ==
              if fn == Min then q.(n := LeastOf(q.n, arg.n)) else if fn == Max then q.(n := GreatestOf(q.n, arg.n))
                  else q
    ensures SameKind(args + [arg]) <==> args == [] || (SameKind(args) && args[0].length == arg.length)
  {
    var more := args + [arg];
    assert more[..|more| - 1] == args;
    if args != [] {
      assert more[0] == args[0];
      assert SameKind(more) ==> more[|args|].length == more[0].length && forall i :: 0 <= i < |args| ==>
               more[i] == args[i];
    }
  }

  /** The evaluator's summary of the arguments read so far. */
  datatype Summary = Summary(firstThree: seq<Quantity>, q: Quantity, count: nat, dimensionsValid: bool) {
    ghost predicate Of(fn: MathFunction, args: seq<Quantity>) {
      && count == |args| && firstThree == (if count <= 3 then args else args[..3])
      && dimensionsValid == SameKind(args) && (args != [] ==> q == Running(fn, args))
    }
  }

  const EMPTY := Summary([], NOTHING, 0, true)

  /** Note one more argument. */
  method Noted(fn: MathFunction, s: Summary, arg: Quantity, ghost args: seq<Quantity>) returns (next: Summary)
    requires s.Of(fn, args)
    ensures next.Of(fn, args + [arg])
  {
    RunningNext(fn, args, arg);
    next := s.(count := s.count + 1);
    if s.count < 3 {
      next := next.(firstThree := s.firstThree + [arg]);
    }
    if s.count == 0 {
      next := next.(q := arg);
    } else {
      next := next.(dimensionsValid := s.dimensionsValid && s.q.length == arg.length);
      if fn == Min {
        next := next.(q := s.q.(n := LeastOf(s.q.n, arg.n)));
      } else if fn == Max {
        next := next.(q := s.q.(n := GreatestOf(s.q.n, arg.n)));
      }
    }
  }

  /** The value and status of a call once its arguments are read. */
  method Concluded(fn: MathFunction, s: Summary, sofar: Status, ghost args: seq<Quantity>)
    returns (q: Quantity, status: Status)
    requires s.Of(fn, args) && args != []
    ensures Step(q, [], status) == Finished(fn, args, [], sofar)
  {
    q, status := s.q, sofar;
    if !s.dimensionsValid {
      status := ValueInvalid;
    }
    match fn {
      case Calc =>
        if s.count != 1 {
          status := ValueInvalid;
        }
      case Clamp =>
        if s.count != 3 {
          status := ValueInvalid;
        } else {
          q := q.(n := GreatestOf(s.firstThree[0].n, LeastOf(s.firstThree[1].n, s.firstThree[2].n)));
        }
      case _ =>
    }
  }

  class Parser {
    const ts: seq<MathToken>
    var at: nat
    var depth: nat
    var status: Status

    ghost predicate Valid()
      reads this
    {
      at <= |ts| && depth <= MAX_NESTING
    }

    /** The tokens still to be read. */
    ghost function Ahead(): seq<MathToken>
      requires Valid()
      reads this
    {
      Strip(ts[at..])
    }

    /** Reading `s` leaves `q` and the cursor as a walk would. */
    ghost predicate Reached(q: Quantity, s: Step)
      requires Valid()
      reads this
    {
      s == Step(q, Ahead(), status)
    }

    constructor (ts: seq<MathToken>)
      ensures Valid() && this.ts == ts && at == 0 && depth == 0 && status == ValueResolved
    {
      this.ts := ts;
      at, depth, status := 0, 0, ValueResolved;
    }

    method SkipSpace()
      requires Valid()
      modifies this`at
      ensures Valid() && at >= old(at) && Ahead() == old(Ahead())
      ensures at == |ts| || !IsSpace(ts[at])
      ensures if at == |ts| then Ahead() == [] else Ahead() == [ts[at]] + Strip(ts[at + 1..])
    {
      while at < |ts| && IsSpace(ts[at])
        invariant Valid() && at >= old(at) && Ahead() == old(Ahead())
      {
        StripAt(ts, at);
        at := at + 1;
      }
      if at < |ts| {
        StripAt(ts, at);
      }
    }

    method Expr(min: nat) returns (q: Quantity)
      requires Valid() && status == ValueResolved
      modifies this
      ensures Valid() && depth == old(depth) && at >= old(at) && (status == ValueResolved ==> at > old(at))
      ensures Reached(q, ExprOf(old(Ahead()), min, depth))
      decreases |ts| - at, 3
    {
      ghost var whole := ExprOf(Ahead(), min, depth);
      q := Atom();
      var more := true;
      while status == ValueResolved && more
        invariant Valid() && depth == old(depth) && at >= old(at) && (status == ValueResolved ==> at > old(at))
        invariant Climb(Step(q, Ahead(), status), min, depth) == whole
        invariant !more ==> Step(q, Ahead(), status) == whole
        decreases |ts| - at, more
      {
        q, more := TakeOperator(q, min);
      }
    }

    /** The next operator with its right operand, if its priority suffices. */
    method TakeOperator(left: Quantity, min: nat) returns (q: Quantity, more: bool)
      requires Valid() && status == ValueResolved
      modifies this
      ensures Valid() && depth == old(depth) && at >= old(at) && (more ==> at > old(at))
      ensures var whole := Climb(Step(left, old(Ahead()), ValueResolved), min, depth);
              if more then Climb(Step(q, Ahead(), status), min, depth) == whole
              else status == ValueResolved && Reached(q, whole) && whole == Step(left, old(Ahead()), ValueResolved)
      decreases |ts| - at, 4
    {
      SkipSpace();
      if at >= |ts| || !ts[at].Sign? || Priority(ts[at].op) < min {
        return left, false;
      }
      var op := ts[at].op;
      at := at + 1;
      assert old(Ahead())[1..] == Ahead();
      var right := Expr(Priority(op) + 1);
      q := Operate(op, left, right);
      more := true;
    }

    /** One operation on the operands just read. */
    method Operate(op: Operator, left: Quantity, right: Quantity) returns (q: Quantity)
      requires Valid()
      modifies this`status
      ensures Reached(q, Combined(op, left, Step(right, old(Ahead()), old(status))))
    {
      q := left;
      match op {
        case Plus =>
          if left.length != right.length {
            status := ValueInvalid;
          } else {
            q := q.(n := left.n + right.n);
          }
        case Minus =>
          if left.length != right.length {
            status := ValueInvalid;
          } else {
            q := q.(n := left.n - right.n);
          }
        case Times =>
          if left.length && right.length {
            status := ValueUnsupported;
          } else {
            q := Quantity(left.n * right.n, left.length || right.length);
          }
        case Over =>
          if right.n == 0.0 || right.length {
            status := ValueUnsupported;
          } else {
            q := q.(n := left.n / right.n);
          }
      }
    }

    method Atom() returns (q: Quantity)
      requires Valid() && status == ValueResolved
      modifies this
      ensures Valid() && depth == old(depth) && at >= old(at) && (status == ValueResolved ==> at > old(at))
      ensures Reached(q, AtomOf(old(Ahead()), depth))
      decreases |ts| - at, 2
    {
      SkipSpace();
      if at >= |ts| {
        status := ValueInvalid;
        return NOTHING;
      }
      var t := ts[at];
      at := at + 1;
      assert old(Ahead())[1..] == Ahead();
      q := NOTHING;
      match t {
        case Open(fn) =>
          q := Arguments(fn);
        case Parenthesis =>
          q := Arguments(Calc);
        case UnknownFunction =>
          status := ValueUnsupported;
        case Value(value, valueStatus) =>
          q, status := value, valueStatus;
        case Identifier =>
          status := ValueUnsupported;
        case _ =>
          status := ValueInvalid;
      }
    }

    /** The arguments of a function whose opening was read. */
    method Arguments(fn: MathFunction) returns (q: Quantity)
      requires Valid() && status == ValueResolved
      modifies this
      ensures Valid() && depth == old(depth) && at >= old(at)
      ensures Reached(q, if depth + 1 > MAX_NESTING then Step(NOTHING, old(Ahead()), ValueUnsupported)
                         else CallOf(old(Ahead()), fn, [], depth + 1))
      decreases |ts| - at, 5
    {
      depth := depth + 1;
      if depth > MAX_NESTING {
        depth := depth - 1;
        status := ValueUnsupported;
        return NOTHING;
      }
      q := ReadArguments(fn);
      depth := depth - 1;
    }

    method ReadArguments(fn: MathFunction) returns (q: Quantity)
      requires Valid() && status == ValueResolved
      modifies this
      ensures Valid() && depth == old(depth) && at >= old(at)
      ensures Reached(q, CallOf(old(Ahead()), fn, [], depth))
      decreases |ts| - at, 4
    {
      var summary := EMPTY;
      ghost var args: seq<Quantity> := [];
      ghost var whole := CallOf(Ahead(), fn, [], depth);
      var ended := false;
      while !ended
        invariant Valid() && depth == old(depth) && at >= old(at)
        invariant summary.Of(fn, args) && (ended ==> args != [])
        invariant if ended then Finished(fn, args, Ahead(), status) == whole
                  else status == ValueResolved && CallOf(Ahead(), fn, args, depth) == whole
        decreases |ts| - at, !ended
      {
        var arg := Expr(0);
        if status != ValueResolved {
          return NOTHING;
        }
        summary := Noted(fn, summary, arg, args);
        args := args + [arg];
        ended := EndArgument();
      }
      q, status := Concluded(fn, summary, status, args);
    }

    /** What follows an argument: the end of the call, or another argument. */
    method EndArgument() returns (ended: bool)
      requires Valid() && status == ValueResolved
      modifies this`at, this`status
      ensures Valid() && at >= old(at)
      ensures var rest := old(Ahead());
              if ended then
                && Ahead() == (if rest == [] then [] else rest[1..])
                && status == (if rest != [] && rest[0].Close? then ValueResolved else ValueInvalid)
                && (rest != [] ==> !rest[0].Separator?)
              else status == ValueResolved && at > old(at) && rest != [] && rest[0].Separator? && Ahead() == rest[1..]
    {
      SkipSpace();
      if at >= |ts| {
        status := ValueInvalid;
        return true;
      }
      var end := ts[at];
      at := at + 1;
      assert old(Ahead())[1..] == Ahead();
      if end.Close? {
        return true;
      }
      if !end.Separator? {
        status := ValueInvalid;
        return true;
      }
      return false;
    }
  }

  /** Plus and minus stand between white space; comments do not count. */
  predicate SignsSpaced(ts: seq<MathToken>) {
    forall i :: 0 <= i < |ts| && ts[i].Sign? && (ts[i].op == Plus || ts[i].op == Minus) ==>
      0 < i < |ts| - 1 && ts[i - 1].Whitespace? && ts[i + 1].Whitespace?
  }

  /** The property takes quantities of this kind. */
  predicate Accepts(property: Property, q: Quantity) {
    (property == FontSize ==> q.length) && (property == Opacity ==> !q.length)
  }

  /** Negative results become zero, and opacity stops at one. */
  function Shown(property: Property, n: real): real {
    var least := GreatestOf(0.0, n);
    if property == Opacity then LeastOf(1.0, least) else least
  }

  /** The tokens, without their space, are those of the sum `s`, whose value is `q`. */
  ghost predicate SpelledBy(ts: seq<MathToken>, s: Sum, q: Quantity) {
    Reads(Strip(ts), s, q)
  }

  method CheckSigns(ts: seq<MathToken>) returns (ok: bool)
    ensures ok == SignsSpaced(ts)
  {
    for i := 0 to |ts|
      invariant forall j :: 0 <= j < i && ts[j].Sign? && (ts[j].op == Plus || ts[j].op == Minus) ==>
                  0 < j < |ts| - 1 && ts[j - 1].Whitespace? && ts[j + 1].Whitespace?
    {
      var t := ts[i];
      if t.Sign? && (t.op == Plus || t.op == Minus) {
        if i == 0 || i + 1 == |ts| || !ts[i - 1].Whitespace? || !ts[i + 1].Whitespace? {
          return false;
        }
      }
    }
    return true;
  }

  lemma {:induction false} SpelledExactly(ts: seq<MathToken>, w: Step)
    requires w == ExprOf(Strip(ts), 0, 0)
    ensures w.status == ValueResolved && w.rest == [] ==> exists s :: SpelledBy(ts, s, w.q)
    ensures forall s, q :: SpelledBy(ts, s, q) ==> w == Step(q, [], ValueResolved)
  {
    forall s, q | SpelledBy(ts, s, q)
      ensures w == Step(q, [], ValueResolved)
    {
      WalkIsGrammar(Strip(ts), q);
    }
    WalkIsGrammar(Strip(ts), w.q);
    if s :| Reads(Strip(ts), s, w.q) {
      assert SpelledBy(ts, s, w.q);
    }
  }

  /** Whether all the tokens are one expression, and if not, why. */
  function WholeStatus(ts: seq<MathToken>): Status {
    var s := ExprOf(Strip(ts), 0, 0);
    if s.status == ValueResolved && s.rest != [] then ValueInvalid else s.status
  }

  /** Whether a property takes the tokens, and if not, why. */
  function MathStatus(property: Property, ts: seq<MathToken>): Status {
    if !SignsSpaced(ts) then ValueInvalid
    else if WholeStatus(ts) == ValueResolved && !Accepts(property, ExprOf(Strip(ts), 0, 0).q) then ValueInvalid
    else WholeStatus(ts)
  }

  /** An expression whose next operand is unsupported is unsupported exactly when
      the operand is not added to or taken from a quantity of another kind; nothing
      after the operand is looked at. */
  lemma {:induction false} UnsupportedStays(left: Step, min: nat, depth: nat)
    requires left.status == ValueResolved && LeadPriority(left.rest) > 0 && LeadPriority(left.rest) >= min
    requires ExprOf(left.rest[1..], LeadPriority(left.rest) + 1, depth).status == ValueUnsupported
    ensures var right := ExprOf(left.rest[1..], LeadPriority(left.rest) + 1, depth);
            var all := Climb(left, min, depth);
            && (all.status == ValueUnsupported <==>
                left.rest[0].op == Times || left.rest[0].op == Over || left.q.length == right.q.length)
            && (all.status == ValueInvalid || all.status == ValueUnsupported) && all.rest == right.rest
  {
    var op := left.rest[0].op;
    var right := ExprOf(left.rest[1..], Priority(op) + 1, depth);
    assert Climb(left, min, depth) == Climb(Combined(op, left.q, right), min, depth) == Combined(op, left.q, right);
  }

  lemma {:induction false} StripOne(t: MathToken, rest: seq<MathToken>)
    ensures Strip([t] + rest) == (if IsSpace(t) then [] else [t]) + Strip(rest)
  {
    assert ([t] + rest)[1..] == rest;
  }

  lemma {:induction false} StripSum(t: MathToken)
    requires !IsSpace(t)
    ensures Strip([t] + ([Whitespace] + ([Sign(Plus)] + ([Whitespace] + [Identifier])))) ==
            [t] + ([Sign(Plus)] + [Identifier])
    ensures Strip([Identifier]) == [Identifier]
  {
    StripOne(Identifier, []);
    assert [Identifier] + [] == [Identifier];
    StripOne(Whitespace, [Identifier]);
    StripOne(Sign(Plus), [Whitespace] + [Identifier]);
    StripOne(Whitespace, [Sign(Plus)] + ([Whitespace] + [Identifier]));
    StripOne(t, [Whitespace] + ([Sign(Plus)] + ([Whitespace] + [Identifier])));
  }

  lemma {:induction false} UnknownSum(q: Quantity)
    requires q.length
    ensures ExprOf([Value(q, ValueResolved)] + ([Sign(Plus)] + [Identifier]), 0, 0).status == ValueInvalid
    ensures ExprOf([Identifier], 0, 0) == ExprOf([Identifier], 2, 0) == Step(NOTHING, [], ValueUnsupported)
  {
    var ts := [Value(q, ValueResolved)] + ([Sign(Plus)] + [Identifier]);
    var left := AtomOf(ts, 0);
    assert ts[1..] == [Sign(Plus)] + [Identifier] && ts[1..][1..] == [Identifier] && [Identifier][1..] == [];
    UnsupportedStays(left, 0, 0);
  }

  /** A length plus something unknown is invalid instead of unsupported. */
  lemma {:induction false} UnknownOperandIsInvalid(q: Quantity)
    requires q.length
    ensures var ts := [Value(q, ValueResolved)] + ([Whitespace] + ([Sign(Plus)] + ([Whitespace] + [Identifier])));
            SignsSpaced(ts) && WholeStatus(ts) == ValueInvalid && WholeStatus([Identifier]) == ValueUnsupported
  {
    StripSum(Value(q, ValueResolved));
    UnknownSum(q);
  }

  /** The expression that all the tokens spell, if there is one. */
  method EvalExpression(ts: seq<MathToken>) returns (q: Quantity, status: Status)
    ensures status == ValueResolved ==> exists s :: SpelledBy(ts, s, q)
    ensures forall s, x :: SpelledBy(ts, s, x) ==> status == ValueResolved && x == q
    ensures status == WholeStatus(ts) && (status == ValueResolved ==> q == ExprOf(Strip(ts), 0, 0).q)
  {
    var p := new Parser(ts);
    assert ts[0..] == ts;
    q := p.Expr(0);
    p.SkipSpace();
    SpelledExactly(ts, ExprOf(Strip(ts), 0, 0));
    status := p.status;
    if p.at != |ts| && p.status == ValueResolved {
      status := ValueInvalid;
    }
  }

  /** A value is resolved exactly when its signs are spaced and its tokens spell
      a well-typed expression of the kind the property takes; it is then that
      expression's value, limited to the property's range. */
  method EvalMathTokens(property: Property, ts: seq<MathToken>) returns (n: real, status: Status)
    ensures status == ValueResolved <==>
            SignsSpaced(ts) && exists s, q :: SpelledBy(ts, s, q) && Accepts(property, q)
    ensures status == ValueResolved ==> forall s, q :: SpelledBy(ts, s, q) ==> n == Shown(property, q.n)
    ensures status == MathStatus(property, ts)
  {
    n := 0.0;
    var spaced := CheckSigns(ts);
    if !spaced {
      return 0.0, ValueInvalid;
    }
    var q;
    q, status := EvalExpression(ts);
    if status != ValueResolved {
      return 0.0, status;
    }
    if (property == FontSize && !q.length) || (property == Opacity && q.length) {
      return 0.0, ValueInvalid;
    }
    n := GreatestOf(0.0, q.n);
    if property == Opacity {
      n := LeastOf(1.0, n);
    }
  }
}
