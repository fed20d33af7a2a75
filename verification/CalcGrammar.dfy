/** The grammar of math functions: a sum is products joined by plus and minus, a
    product is operands joined by times and over, both taken from the left. What
    the walk by precedence accepts is exactly this grammar, with its values. */
module CalcGrammar {
  import opened Optional
  import opened CustomProperties
  import opened Calculations

  datatype Sum = Sole(product: Product) | Added(sum: Sum, negated: bool, product: Product)

  datatype Product = Single(operand: Operand) | Scaled(product: Product, inverted: bool, operand: Operand)

  datatype Operand = Plain(q: Quantity) | Applied(fn: MathFunction, args: Args) | Enclosed(sum: Sum)

  datatype Args = Last(sum: Sum) | More(sum: Sum, args: Args)

  /* The tokens. */

  function SumTokens(s: Sum): seq<MathToken> {
    match s
    case Sole(p) => ProductTokens(p)
    case Added(left, negated, p) => SumTokens(left) + ([Sign(if negated then Minus else Plus)] + ProductTokens(p))
  }

  function ProductTokens(p: Product): seq<MathToken> {
    match p
    case Single(o) => OperandTokens(o)
    case Scaled(left, inverted, o) =>
      ProductTokens(left) + ([Sign(if inverted then Over else Times)] + OperandTokens(o))
  }

  function OperandTokens(o: Operand): seq<MathToken> {
    match o
    case Plain(q) => [Value(q, ValueResolved)]
    case Applied(fn, args) => [Open(fn)] + ArgsTokens(args)
    case Enclosed(s) => [Parenthesis] + (SumTokens(s) + [Close])
  }

  function ArgsTokens(args: Args): seq<MathToken> {
    match args
    case Last(s) => SumTokens(s) + [Close]
    case More(s, rest) => SumTokens(s) + ([Separator] + ArgsTokens(rest))
  }

  /** How deep the parentheses go. */
  function SumDepth(s: Sum): nat {
    match s
    case Sole(p) => ProductDepth(p)
    case Added(left, _, p) => Deeper(SumDepth(left), ProductDepth(p))
  }

  function ProductDepth(p: Product): nat {
    match p
    case Single(o) => OperandDepth(o)
    case Scaled(left, _, o) => Deeper(ProductDepth(left), OperandDepth(o))
  }

  function OperandDepth(o: Operand): nat {
    match o
    case Plain(_) => 0
    case Applied(_, args) => 1 + ArgsDepth(args)
    case Enclosed(s) => 1 + SumDepth(s)
  }

  function ArgsDepth(args: Args): nat {
    match args
    case Last(s) => SumDepth(s)
    case More(s, rest) => Deeper(SumDepth(s), ArgsDepth(rest))
  }

  /* The values. */

  /** Lengths add to lengths and numbers to numbers. */
  function Together(negated: bool, x: Quantity, y: Quantity): Option<Quantity> {
    if x.length != y.length then None else Some(Quantity(if negated then x.n - y.n else x.n + y.n, x.length))
  }

  /** At most one factor is a length, and a divisor is a number other than zero. */
  function Scale(inverted: bool, x: Quantity, y: Quantity): Option<Quantity> {
    if inverted then
      if y.length || y.n == 0.0 then None else Some(Quantity(x.n / y.n, x.length))
    else if x.length && y.length then None
    else Some(Quantity(x.n * y.n, x.length || y.length))
  }

  function SumValue(s: Sum): Option<Quantity> {
    match s
    case Sole(p) => ProductValue(p)
    case Added(left, negated, p) =>
      var x, y := SumValue(left), ProductValue(p);
      if x.None? || y.None? then None else Together(negated, x.value, y.value)
  }

  function ProductValue(p: Product): Option<Quantity> {
    match p
    case Single(o) => OperandValue(o)
    case Scaled(left, inverted, o) =>
      var x, y := ProductValue(left), OperandValue(o);
      if x.None? || y.None? then None else Scale(inverted, x.value, y.value)
  }

  function OperandValue(o: Operand): Option<Quantity> {
    match o
    case Plain(q) => Some(q)
    case Applied(fn, args) =>
      var values := ArgsValues(args);
      if values.None? then None else Result(fn, values.value)
    case Enclosed(s) => SumValue(s)
  }

  function ArgsValues(args: Args): Option<seq<Quantity>> {
    var x := SumValue(args.sum);
    if x.None? then None
    else if args.Last? then Some([x.value])
    else
      var others := ArgsValues(args.args);
      if others.None? then None else Some([x.value] + others.value)
  }

  /** What a function makes of its arguments, if they are of one kind. */
  function Result(fn: MathFunction, args: seq<Quantity>): Option<Quantity> {
    if args == [] || (exists i :: 0 <= i < |args| && args[i].length != args[0].length) then None
    else
      match fn
      case Calc => if |args| == 1 then Some(args[0]) else None
      case Min => Some(args[0].(n := Least(args)))
      case Max => Some(args[0].(n := Greatest(args)))
      case Clamp =>
        if |args| != 3 then None
        else if args[1].n <= args[2].n && args[0].n <= args[1].n then Some(args[1])
        else if args[2].n < args[1].n && args[0].n <= args[2].n then Some(args[2])
        else Some(args[0])
  }

  /** `Least` is an argument, and none is less; `Greatest` likewise. */
  lemma {:induction false} LeastAndGreatest(args: seq<Quantity>)
    requires args != []
    ensures exists i :: 0 <= i < |args| && args[i].n == Least(args)
    ensures forall i :: 0 <= i < |args| ==> Least(args) <= args[i].n
    ensures exists i :: 0 <= i < |args| && args[i].n == Greatest(args)
    ensures forall i :: 0 <= i < |args| ==> args[i].n <= Greatest(args)
  {
    if |args| == 1 {
      assert args[0].n == Least(args) == Greatest(args);
    } else {
      var rest := args[..|args| - 1];
      LeastAndGreatest(rest);
      var i :| 0 <= i < |rest| && rest[i].n == Least(rest);
      var j :| 0 <= j < |rest| && rest[j].n == Greatest(rest);
      assert args[i] == rest[i] && args[j] == rest[j] && args[|args| - 1].n == args[|rest|].n;
      forall k | 0 <= k < |args|
        ensures Least(args) <= args[k].n <= Greatest(args)
      {
        assert k < |rest| ==> args[k] == rest[k];
      }
    }
  }

  /* Trees and the grammar. */

  function SumExpr(s: Sum): Expr {
    match s
    case Sole(p) => ProductExpr(p)
    case Added(left, negated, p) => Binary(if negated then Minus else Plus, SumExpr(left), ProductExpr(p))
  }

  function ProductExpr(p: Product): Expr {
    match p
    case Single(o) => OperandExpr(o)
    case Scaled(left, inverted, o) => Binary(if inverted then Over else Times, ProductExpr(left), OperandExpr(o))
  }

  function OperandExpr(o: Operand): Expr {
    match o
    case Plain(q) => Literal(q)
    case Applied(fn, args) => Call(fn, ArgsExprs(args))
    case Enclosed(s) => Group(SumExpr(s))
  }

  function ArgsExprs(args: Args): Exprs {
    match args
    case Last(s) => Cons(SumExpr(s), Nil)
    case More(s, rest) => Cons(SumExpr(s), ArgsExprs(rest))
  }

  lemma {:induction false} Operates(op: Operator, x: Quantity, y: Quantity)
    ensures Operation(op, x, y) == if op == Plus || op == Minus then Together(op == Minus, x, y)
                                   else Scale(op == Over, x, y)
  {
  }

  /** A binary operation, printed where operators below priority `m` need parentheses. */
  lemma {:induction false} BinaryPrinted(op: Operator, l: Expr, r: Expr, m: nat)
    ensures var strength: nat := if op == Plus || op == Minus then 1 else 2;
            var bare := Printed(l, strength) + ([Sign(op)] + Printed(r, strength + 1));
            var depth := Deeper(Nesting(l, strength), Nesting(r, strength + 1));
            && Printed(Binary(op, l, r), m) == (if strength < m then [Parenthesis] + (bare + [Close]) else bare)
            && Nesting(Binary(op, l, r), m) == (if strength < m then 1 + depth else depth)
    ensures Meaning(Binary(op, l, r)) ==
            if Meaning(l).None? || Meaning(r).None? then None
            else if op == Plus || op == Minus then Together(op == Minus, Meaning(l).value, Meaning(r).value)
            else Scale(op == Over, Meaning(l).value, Meaning(r).value)
  {
    if Meaning(l).Some? && Meaning(r).Some? {
      Operates(op, Meaning(l).value, Meaning(r).value);
    }
    assert Printed(Binary(op, l, r), m) ==
           if Priority(op) < m then Grouped(PrintedBinary(op, l, r)) else PrintedBinary(op, l, r);
  }

  lemma {:induction false} SumAsExpr(s: Sum)
    ensures var e := SumExpr(s);
            Printed(e, 0) == Printed(e, 1) == SumTokens(s) && Meaning(e) == SumValue(s) &&
            Nesting(e, 0) == Nesting(e, 1) == SumDepth(s)
  {
    match s
    case Sole(p) => ProductAsExpr(p);
    case Added(left, negated, p) =>
      SumAsExpr(left);
      ProductAsExpr(p);
      BinaryPrinted(if negated then Minus else Plus, SumExpr(left), ProductExpr(p), 0);
      BinaryPrinted(if negated then Minus else Plus, SumExpr(left), ProductExpr(p), 1);
  }

  lemma {:induction false} ProductAsExpr(p: Product)
    ensures var e := ProductExpr(p);
            Printed(e, 0) == Printed(e, 1) == Printed(e, 2) == ProductTokens(p) && Meaning(e) == ProductValue(p) &&
            Nesting(e, 0) == Nesting(e, 1) == Nesting(e, 2) == ProductDepth(p)
  {
    match p
    case Single(o) =>
      OperandAsExpr(o, 0);
      OperandAsExpr(o, 1);
      OperandAsExpr(o, 2);
    case Scaled(left, inverted, o) =>
      ProductAsExpr(left);
      OperandAsExpr(o, 3);
      BinaryPrinted(if inverted then Over else Times, ProductExpr(left), OperandExpr(o), 0);
      BinaryPrinted(if inverted then Over else Times, ProductExpr(left), OperandExpr(o), 1);
      BinaryPrinted(if inverted then Over else Times, ProductExpr(left), OperandExpr(o), 2);
  }

  lemma {:induction false} OperandAsExpr(o: Operand, m: nat)
    ensures var e := OperandExpr(o);
            Printed(e, m) == OperandTokens(o) && Meaning(e) == OperandValue(o) && Nesting(e, m) == OperandDepth(o)
  {
    match o
    case Plain(_) =>
    case Applied(fn, args) =>
      ArgsAsExprs(args);
      if ArgsValues(args).Some? {
        ResultAsFolded(fn, ArgsValues(args).value);
      }
    case Enclosed(s) => SumAsExpr(s);
  }

  lemma {:induction false} ArgsAsExprs(args: Args)
    ensures var es := ArgsExprs(args);
            PrintedArgs(es) == ArgsTokens(args) && Meanings(es) == ArgsValues(args) &&
                NestingOfArgs(es) == ArgsDepth(args)
    ensures ArgsValues(args).Some? ==> ArgsValues(args).value != []
  {
    SumAsExpr(args.sum);
    if args.More? {
      ArgsAsExprs(args.args);
    } else {
      LastMeaning(SumExpr(args.sum));
    }
  }

  lemma {:induction false} LastMeaning(e: Expr)
    ensures Meanings(Cons(e, Nil)) == if Meaning(e).None? then None else Some([Meaning(e).value])
  {
    assert Meanings(Nil) == Some([]);
    if Meaning(e).Some? {
      assert [Meaning(e).value] + [] == [Meaning(e).value];
    }
  }

  lemma {:induction false} ResultAsFolded(fn: MathFunction, args: seq<Quantity>)
    requires args != []
    ensures Result(fn, args) == if Arity(fn, |args|) && SameKind(args) then Some(Folded(fn, args)) else None
  {
    if |args| == 3 && SameKind(args) {
      assert args[1].length == args[0].length && args[2].length == args[0].length;
    }
  }

  /** A tree where the grammar wants a sum, a product or an operand. */
  lemma {:induction false} ExprAsSum(e: Expr) returns (s: Sum)
    requires Meaning(e).Some?
    ensures SumTokens(s) == Printed(e, 0) == Printed(e, 1) && SumValue(s) == Meaning(e)
    ensures SumDepth(s) == Nesting(e, 0) == Nesting(e, 1)
    decreases e, 3
  {
    if e.Binary? && (e.op == Plus || e.op == Minus) {
      var left := ExprAsSum(e.left);
      var p := ExprAsProduct(e.right);
      BinaryPrinted(e.op, e.left, e.right, 0);
      BinaryPrinted(e.op, e.left, e.right, 1);
      s := Added(left, e.op == Minus, p);
    } else {
      var p := ExprAsProduct(e);
      s := Sole(p);
    }
  }

  lemma {:induction false} ExprAsProduct(e: Expr) returns (p: Product)
    requires Meaning(e).Some?
    ensures ProductTokens(p) == Printed(e, 2) && ProductValue(p) == Meaning(e) && ProductDepth(p) == Nesting(e, 2)
    ensures !(e.Binary? && (e.op == Plus || e.op == Minus)) ==>
              Printed(e, 0) == Printed(e, 1) == Printed(e, 2) && Nesting(e, 0) == Nesting(e, 1) == Nesting(e, 2)
    decreases e, 2
  {
    if e.Binary? {
      BinaryPrinted(e.op, e.left, e.right, 0);
      BinaryPrinted(e.op, e.left, e.right, 1);
      BinaryPrinted(e.op, e.left, e.right, 2);
    }
    if e.Binary? && (e.op == Times || e.op == Over) {
      var left := ExprAsProduct(e.left);
      var o := ExprAsOperand(e.right);
      p := Scaled(left, e.op == Over, o);
    } else {
      var o := ExprAsOperand(e);
      p := Single(o);
      if e.Binary? {
        BinaryPrinted(e.op, e.left, e.right, 3);
      }
    }
  }

  lemma {:induction false} ExprAsOperand(e: Expr) returns (o: Operand)
    requires Meaning(e).Some?
    ensures OperandTokens(o) == Printed(e, 3) && OperandValue(o) == Meaning(e) && OperandDepth(o) == Nesting(e, 3)
    decreases e, 1
  {
    match e
    case Literal(q) => o := Plain(q);
    case Call(fn, es) =>
      var args := ExprsAsArgs(es);
      o := Applied(fn, args);
      ResultAsFolded(fn, ArgsValues(args).value);
    case Group(inner) =>
      var s := ExprAsSum(inner);
      o := Enclosed(s);
    case Binary(op, l, r) =>
      var s := BinaryAsSum(op, l, r);
      BinaryPrinted(op, l, r, 3);
      o := Enclosed(s);
  }

  lemma {:induction false} BinaryAsSum(op: Operator, l: Expr, r: Expr) returns (s: Sum)
    requires Meaning(Binary(op, l, r)).Some?
    ensures SumTokens(s) == Printed(Binary(op, l, r), 0) && SumValue(s) == Meaning(Binary(op, l, r))
    ensures SumDepth(s) == Nesting(Binary(op, l, r), 0)
    decreases Binary(op, l, r), 0
  {
    BinaryPrinted(op, l, r, 0);
    if op == Plus || op == Minus {
      var left := ExprAsSum(l);
      var p := ExprAsProduct(r);
      s := Added(left, op == Minus, p);
    } else {
      var left := ExprAsProduct(l);
      var right := ExprAsOperand(r);
      s := Sole(Scaled(left, op == Over, right));
    }
  }

  lemma {:induction false} ExprsAsArgs(es: Exprs) returns (args: Args)
    requires es.Cons? && Meanings(es).Some?
    ensures ArgsTokens(args) == PrintedArgs(es) && ArgsValues(args) == Meanings(es) &&
            ArgsDepth(args) == NestingOfArgs(es)
    ensures ArgsValues(args).value != []
    decreases es, 0
  {
    var s := ExprAsSum(es.head);
    if es.tail.Nil? {
      args := Last(s);
      LastMeaning(es.head);
    } else {
      var rest := ExprsAsArgs(es.tail);
      args := More(s, rest);
    }
  }

  /** The tokens are those of a sum with this value, nested no deeper than allowed. */
  ghost predicate Reads(ts: seq<MathToken>, s: Sum, q: Quantity) {
    ts == SumTokens(s) && SumValue(s) == Some(q) && SumDepth(s) <= MAX_NESTING
  }

  /** What the walk accepts is exactly the grammar, with its values. */
  lemma {:induction false} WalkIsGrammar(ts: seq<MathToken>, q: Quantity)
    ensures ExprOf(ts, 0, 0) == Step(q, [], ValueResolved) <==> exists s :: Reads(ts, s, q)
  {
    AcceptsExactly(ts, q);
    if e :| ts == Printed(e, 0) && Meaning(e) == Some(q) && Nesting(e, 0) <= MAX_NESTING {
      var s := ExprAsSum(e);
      assert Reads(ts, s, q);
    }
    if s :| Reads(ts, s, q) {
      SumAsExpr(s);
      assert ts == Printed(SumExpr(s), 0);
    }
  }

}
