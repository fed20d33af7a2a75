/** Conditional-comment expressions: their grammar, and the set of environments
    in which an expression is true. */
module MsoConditions {
  import opened Optional

  const MAX_DEPTH := 128
  const MIN_VERSION := 9
  const MAX_VERSION := 16

  datatype Comparison = Eq | Lt | Lte | Gt | Gte

  datatype Keyword = TrueWord | FalseWord | IEWord | MsoWord | Compare(op: Comparison) | OtherWord

  /** A number too large to represent is `Number(None)`. */
  datatype Token =
    | Bang | Ampersand | Bar | LeftParen | RightParen
    | Word(keyword: Keyword) | Number(value: Option<nat>) | Other

  datatype Condition =
    | Always | Never | InIE | AnyMso | Version(op: Comparison, version: nat)
    | Negation(inner: Condition) | Both(left: Condition, right: Condition) | Either(left: Condition, right: Condition)
    | Group(inner: Condition)

  /* Meaning. */

  datatype Environment = Environment(version: nat, ie: bool)

  predicate Supported(env: Environment) {
    MIN_VERSION <= env.version <= MAX_VERSION
  }

  predicate Compares(op: Comparison, version: nat, wanted: nat) {
    match op
    case Eq => version == wanted
    case Lt => version < wanted
    case Lte => version <= wanted
    case Gt => version > wanted
    case Gte => version >= wanted
  }

  predicate Holds(e: Condition, env: Environment) {
    match e
    case Always => true
    case Never => false
    case InIE => env.ie
    case AnyMso => true
    case Version(op, wanted) => Compares(op, env.version, wanted)
    case Negation(x) => !Holds(x, env)
    case Both(l, r) => Holds(l, env) && Holds(r, env)
    case Either(l, r) => Holds(l, env) || Holds(r, env)
    case Group(x) => Holds(x, env)
  }

  /* Grammar. */

  /** How tightly an expression binds: alternatives least, then conjunctions. */
  function Level(e: Condition): nat {
    if e.Either? then 1 else if e.Both? then 2 else 3
  }

  /** Operands bind as tightly as their operator needs. */
  predicate Shaped(e: Condition) {
    match e
    case Negation(x) => Level(x) == 3 && Shaped(x)
    case Both(l, r) => Level(l) >= 2 && Level(r) == 3 && Shaped(l) && Shaped(r)
    case Either(l, r) => Level(r) >= 2 && Shaped(l) && Shaped(r)
    case Group(x) => Shaped(x)
    case Version(op, _) => true
    case _ => true
  }

  function Printed(e: Condition): seq<Token> {
    match e
    case Always => [Word(TrueWord)]
    case Never => [Word(FalseWord)]
    case InIE => [Word(IEWord)]
    case AnyMso => [Word(MsoWord)]
    case Version(op, n) => if op == Eq then [Word(MsoWord), Number(Some(n))]
        else [Word(Compare(op)), Word(MsoWord), Number(Some(n))]
    case Negation(x) => [Bang] + Printed(x)
    case Both(l, r) => Printed(l) + ([Ampersand] + Printed(r))
    case Either(l, r) => Printed(l) + ([Bar] + Printed(r))
    case Group(x) => [LeftParen] + (Printed(x) + [RightParen])
  }

  function Deeper(x: nat, y: nat): nat {
    if x > y then x else y
  }

  /** How many levels of negation and parentheses there are, with the innermost. */
  function Depth(e: Condition): nat {
    match e
    case Negation(x) => 1 + Depth(x)
    case Both(l, r) => Deeper(Depth(l), Depth(r))
    case Either(l, r) => Deeper(Depth(l), Depth(r))
    case Group(x) => 1 + Depth(x)
    case _ => 1
  }

  /* The walk. */

  datatype Step = Step(e: Condition, rest: seq<Token>, failed: bool)

  predicate Next(ts: seq<Token>, t: Token) {
    ts != [] && ts[0] == t
  }

  function OrOf(ts: seq<Token>, depth: nat): (s: Step)
    ensures |s.rest| <= |ts| && (!s.failed ==> |s.rest| < |ts|)
    decreases |ts|, 6
  {
    OrMore(AndOf(ts, depth), depth)
  }

  function OrMore(left: Step, depth: nat): (s: Step)
    ensures |s.rest| <= |left.rest| && (left.failed ==> s == left)
    decreases |left.rest|, 5
  {
    if left.failed || !Next(left.rest, Bar) then left
    else
      var right := AndOf(left.rest[1..], depth);
      OrMore(right.(e := Either(left.e, right.e)), depth)
  }

  function AndOf(ts: seq<Token>, depth: nat): (s: Step)
    ensures |s.rest| <= |ts| && (!s.failed ==> |s.rest| < |ts|)
    decreases |ts|, 4
  {
    AndMore(UnaryOf(ts, depth), depth)
  }

  function AndMore(left: Step, depth: nat): (s: Step)
    ensures |s.rest| <= |left.rest| && (left.failed ==> s == left)
    decreases |left.rest|, 3
  {
    if left.failed || !Next(left.rest, Ampersand) then left
    else
      var right := UnaryOf(left.rest[1..], depth);
      AndMore(right.(e := Both(left.e, right.e)), depth)
  }

  function UnaryOf(ts: seq<Token>, depth: nat): (s: Step)
    ensures |s.rest| <= |ts| && (!s.failed ==> |s.rest| < |ts|)
    decreases |ts|, 2
  {
    if depth >= MAX_DEPTH then Step(Never, ts, true)
    else if Next(ts, Bang) then
      var x := UnaryOf(ts[1..], depth + 1);
      x.(e := Negation(x.e))
    else if Next(ts, LeftParen) then
      var x := OrOf(ts[1..], depth + 1);
      if Next(x.rest, RightParen) then Step(Group(x.e), x.rest[1..], x.failed) else Step(Group(x.e), x.rest, true)
    else AtomOf(ts)
  }

  function AtomOf(ts: seq<Token>): (s: Step)
    ensures |s.rest| <= |ts| && (!s.failed ==> |s.rest| < |ts|)
  {
    if ts == [] || !ts[0].Word? then Step(Never, ts, true)
    else
      var rest := ts[1..];
      match ts[0].keyword
      case TrueWord => Step(Always, rest, false)
      case FalseWord => Step(Never, rest, false)
      case IEWord => Step(InIE, rest, false)
      case MsoWord =>
        if rest != [] && rest[0].Number? then
          if rest[0].value.Some? then Step(Version(Eq, rest[0].value.value), rest[1..], false)
              else Step(AnyMso, rest[1..], true)
        else Step(AnyMso, rest, false)
      case Compare(op) =>
        if op == Eq || !Next(rest, Word(MsoWord)) then Step(Never, rest, true)
        else if |rest| < 2 || !rest[1].Number? || rest[1].value.None? then Step(Never, rest[1..], true)
        else Step(Version(op, rest[1].value.value), rest[2..], false)
      case OtherWord => Step(Never, rest, true)
  }

  /* The accepted texts. */

  /** What may follow an operand. */
  predicate Ends(rest: seq<Token>) {
    rest == [] || !rest[0].Number?
  }

  lemma {:induction false} WalksUnary(e: Condition, depth: nat, rest: seq<Token>)
    requires Shaped(e) && Level(e) == 3 && depth + Depth(e) <= MAX_DEPTH && Ends(rest)
    ensures UnaryOf(Printed(e) + rest, depth) == Step(e, rest, false)
    decreases e, 0
  {
    if e.Negation? {
      WalksUnary(e.inner, depth + 1, rest);
      TakesBang(Printed(e.inner), Step(e.inner, rest, false), depth, rest);
    } else if e.Group? {
      WalksOr(e.inner, depth + 1, [RightParen] + rest);
      TakesGroup(Printed(e.inner), e.inner, depth, rest);
    } else {
      WalksAtom(e, depth, rest);
    }
  }

  lemma {:induction false} TakesBang(ts: seq<Token>, x: Step, depth: nat, rest: seq<Token>)
    requires depth < MAX_DEPTH && UnaryOf(ts + rest, depth + 1) == x
    ensures UnaryOf([Bang] + ts + rest, depth) == x.(e := Negation(x.e))
  {
    assert ([Bang] + ts + rest)[1..] == ts + rest;
  }

  lemma {:induction false} TakesGroup(ts: seq<Token>, e: Condition, depth: nat, rest: seq<Token>)
    requires depth < MAX_DEPTH
    requires OrOf(ts + ([RightParen] + rest), depth + 1) == OrMore(Step(e, [RightParen] + rest, false), depth + 1)
    ensures UnaryOf([LeftParen] + (ts + [RightParen]) + rest, depth) == Step(Group(e), rest, false)
  {
    var whole := [LeftParen] + (ts + [RightParen]) + rest;
    assert whole[1..] == ts + ([RightParen] + rest);
    assert ([RightParen] + rest)[1..] == rest;
  }

  lemma {:induction false} WalksAtom(e: Condition, depth: nat, rest: seq<Token>)
    requires Level(e) == 3 && !e.Negation? && !e.Group? && depth < MAX_DEPTH && Ends(rest)
    ensures UnaryOf(Printed(e) + rest, depth) == Step(e, rest, false)
  {
    var ts := Printed(e) + rest;
    if e.Version? {
      assert e.op == Eq ==> ts[1..][1..] == rest;
      assert e.op != Eq ==> ts[1..][2..] == rest;
    } else {
      assert ts[1..] == rest;
    }
  }

  lemma {:induction false} WalksAnd(e: Condition, depth: nat, rest: seq<Token>)
    requires Shaped(e) && Level(e) >= 2 && depth + Depth(e) <= MAX_DEPTH && Ends(rest)
    ensures AndOf(Printed(e) + rest, depth) == AndMore(Step(e, rest, false), depth)
    decreases e, 1
  {
    if e.Both? {
      var after := Printed(e.right) + rest;
      Reassociate(Printed(e.left), Ampersand, Printed(e.right), rest);
      WalksAnd(e.left, depth, [Ampersand] + after);
      WalksUnary(e.right, depth, rest);
      TakesAmpersand(e.left, e.right, after, depth, rest);
    } else {
      WalksUnary(e, depth, rest);
    }
  }

  lemma {:induction false} Reassociate(xs: seq<Token>, t: Token, ys: seq<Token>, rest: seq<Token>)
    ensures xs + ([t] + ys) + rest == xs + ([t] + (ys + rest))
  {
  }

  lemma {:induction false} TakesAmpersand(l: Condition, r: Condition, after: seq<Token>, depth: nat, rest: seq<Token>)
    requires UnaryOf(after, depth) == Step(r, rest, false)
    ensures AndMore(Step(l, [Ampersand] + after, false), depth) == AndMore(Step(Both(l, r), rest, false), depth)
  {
    assert ([Ampersand] + after)[1..] == after;
  }

  lemma {:induction false} WalksOr(e: Condition, depth: nat, rest: seq<Token>)
    requires Shaped(e) && depth + Depth(e) <= MAX_DEPTH && Ends(rest) && !Next(rest, Ampersand)
    ensures OrOf(Printed(e) + rest, depth) == OrMore(Step(e, rest, false), depth)
    decreases e, 2
  {
    if e.Either? {
      var after := Printed(e.right) + rest;
      Reassociate(Printed(e.left), Bar, Printed(e.right), rest);
      WalksOr(e.left, depth, [Bar] + after);
      WalksAnd(e.right, depth, rest);
      TakesBar(e.left, e.right, after, depth, rest);
    } else {
      WalksAnd(e, depth, rest);
    }
  }

  lemma {:induction false} TakesBar(l: Condition, r: Condition, after: seq<Token>, depth: nat, rest: seq<Token>)
    requires AndOf(after, depth) == AndMore(Step(r, rest, false), depth) && !Next(rest, Ampersand)
    ensures OrMore(Step(l, [Bar] + after, false), depth) == OrMore(Step(Either(l, r), rest, false), depth)
  {
    assert ([Bar] + after)[1..] == after;
  }

  /** What a successful walk consumed spells its expression. */
  ghost predicate Spells(ts: seq<Token>, s: Step, depth: nat, level: nat) {
    !s.failed ==> ts == Printed(s.e) + s.rest && Shaped(s.e) && Level(s.e) >= level && depth + Depth(s.e) <= MAX_DEPTH
  }

  lemma {:induction false} UnarySpells(ts: seq<Token>, depth: nat)
    ensures Spells(ts, UnaryOf(ts, depth), depth, 3)
    decreases |ts|, 2
  {
    if depth < MAX_DEPTH && ts != [] {
      assert ts == [ts[0]] + ts[1..];
      if ts[0] == Bang {
        UnarySpells(ts[1..], depth + 1);
        var x := UnaryOf(ts[1..], depth + 1);
        assert [Bang] + (Printed(x.e) + x.rest) == [Bang] + Printed(x.e) + x.rest;
      } else if ts[0] == LeftParen {
        OrSpells(ts[1..], depth + 1);
        GroupSpells(ts, depth, OrOf(ts[1..], depth + 1));
      } else {
        AtomSpells(ts, depth);
      }
    }
  }

  lemma {:induction false} GroupSpells(ts: seq<Token>, depth: nat, x: Step)
    requires Next(ts, LeftParen) && depth < MAX_DEPTH && Spells(ts[1..], x, depth + 1, 1)
    ensures Next(x.rest, RightParen) ==> Spells(ts, Step(Group(x.e), x.rest[1..], x.failed), depth, 3)
  {
    if Next(x.rest, RightParen) {
      assert x.rest == [RightParen] + x.rest[1..];
      assert [LeftParen] + (Printed(x.e) + ([RightParen] + x.rest[1..])) ==
             [LeftParen] + (Printed(x.e) + [RightParen]) + x.rest[1..];
    }
  }

  lemma {:induction false} AtomSpells(ts: seq<Token>, depth: nat)
    requires depth < MAX_DEPTH
    ensures Spells(ts, AtomOf(ts), depth, 3)
  {
    var s := AtomOf(ts);
    if !s.failed {
      var k := |ts| - |s.rest|;
      assert ts == ts[..k] + ts[k..];
      if s.e.Version? {
        assert ts[..k] == if s.e.op == Eq then [ts[0], ts[1]] else [ts[0], ts[1], ts[2]];
      } else {
        assert ts[..k] == [ts[0]];
      }
    }
  }

  lemma {:induction false} AndSpells(ts: seq<Token>, depth: nat)
    ensures Spells(ts, AndOf(ts, depth), depth, 2)
    decreases |ts|, 4
  {
    UnarySpells(ts, depth);
    AndMoreSpells(ts, UnaryOf(ts, depth), depth);
  }

  lemma {:induction false} AndMoreSpells(ts: seq<Token>, left: Step, depth: nat)
    requires |left.rest| <= |ts| && Spells(ts, left, depth, 2)
    ensures Spells(ts, AndMore(left, depth), depth, 2)
    decreases |left.rest|, 3
  {
    if !left.failed && Next(left.rest, Ampersand) {
      var right := UnaryOf(left.rest[1..], depth);
      UnarySpells(left.rest[1..], depth);
      BothSpells(ts, left, right, depth);
      AndMoreSpells(ts, right.(e := Both(left.e, right.e)), depth);
    }
  }

  lemma {:induction false} BothSpells(ts: seq<Token>, left: Step, right: Step, depth: nat)
    requires Spells(ts, left, depth, 2) && !left.failed && Next(left.rest, Ampersand) &&
             Spells(left.rest[1..], right, depth, 3)
    ensures Spells(ts, right.(e := Both(left.e, right.e)), depth, 2)
  {
    if !right.failed {
      assert left.rest == [Ampersand] + left.rest[1..];
      assert Printed(left.e) + ([Ampersand] + (Printed(right.e) + right.rest)) ==
             Printed(left.e) + ([Ampersand] + Printed(right.e)) + right.rest;
    }
  }

  lemma {:induction false} OrSpells(ts: seq<Token>, depth: nat)
    ensures Spells(ts, OrOf(ts, depth), depth, 1)
    decreases |ts|, 6
  {
    AndSpells(ts, depth);
    OrMoreSpells(ts, AndOf(ts, depth), depth);
  }

  lemma {:induction false} OrMoreSpells(ts: seq<Token>, left: Step, depth: nat)
    requires |left.rest| <= |ts| && Spells(ts, left, depth, 1)
    ensures Spells(ts, OrMore(left, depth), depth, 1)
    decreases |left.rest|, 5
  {
    if !left.failed && Next(left.rest, Bar) {
      var right := AndOf(left.rest[1..], depth);
      AndSpells(left.rest[1..], depth);
      EitherSpells(ts, left, right, depth);
      OrMoreSpells(ts, right.(e := Either(left.e, right.e)), depth);
    }
  }

  lemma {:induction false} EitherSpells(ts: seq<Token>, left: Step, right: Step, depth: nat)
    requires Spells(ts, left, depth, 1) && !left.failed && Next(left.rest, Bar) &&
             Spells(left.rest[1..], right, depth, 2)
    ensures Spells(ts, right.(e := Either(left.e, right.e)), depth, 1)
  {
    if !right.failed {
      assert left.rest == [Bar] + left.rest[1..];
      assert Printed(left.e) + ([Bar] + (Printed(right.e) + right.rest)) ==
             Printed(left.e) + ([Bar] + Printed(right.e)) + right.rest;
    }
  }

  /** A token list is accepted as `e` exactly when it spells `e`. */
  lemma {:induction false} AcceptsExactly(ts: seq<Token>, e: Condition)
    ensures OrOf(ts, 0) == Step(e, [], false) <==> ts == Printed(e) && Shaped(e) && Depth(e) <= MAX_DEPTH
  {
    OrSpells(ts, 0);
    assert Printed(e) + [] == Printed(e);
    if ts == Printed(e) && Shaped(e) && Depth(e) <= MAX_DEPTH {
      WalksOr(e, 0, []);
    }
  }

  /* Masks. */

  const ENVIRONMENTS := 2 * (MAX_VERSION - MIN_VERSION + 1)

  /** The bit of an environment in a mask. */
  function EnvironmentBit(env: Environment): nat
    requires Supported(env)
  {
    2 * (env.version - MIN_VERSION) + if env.ie then 1 else 0
  }

  function EnvironmentOf(bit: nat): Environment {
    Environment(MIN_VERSION + bit / 2, bit % 2 == 1)
  }

  /** Every bit stands for one supported environment, and each has its bit. */
  lemma {:induction false} BitsAreEnvironments(bit: nat, env: Environment)
    ensures bit < ENVIRONMENTS ==> Supported(EnvironmentOf(bit)) && EnvironmentBit(EnvironmentOf(bit)) == bit
    ensures Supported(env) ==> EnvironmentBit(env) < ENVIRONMENTS && EnvironmentOf(EnvironmentBit(env)) == env
  {
  }

  /** A mask, as the set of its bits. */
  type Mask = set<nat>

  function Universe(): Mask {
    set bit: nat | bit < ENVIRONMENTS && Supported(EnvironmentOf(bit))
  }

  /** The environments in which a condition is true. */
  function MaskOf(e: Condition): Mask {
    set bit: nat | bit < ENVIRONMENTS && Holds(e, EnvironmentOf(bit))
  }

  function ExclusiveOr(x: Mask, y: Mask): Mask {
    (x - y) + (y - x)
  }

  /** Inverting a mask against the universe negates the condition. */
  lemma {:induction false} InvertedMask(e: Condition)
    ensures ExclusiveOr(Universe(), MaskOf(e)) == MaskOf(Negation(e)) <= Universe()
  {
    forall bit: nat
      ensures bit in Universe() <==> bit < ENVIRONMENTS
    {
      BitsAreEnvironments(bit, EnvironmentOf(bit));
    }
  }

  lemma {:induction false} JoinedMasks(l: Condition, r: Condition)
    ensures MaskOf(l) * MaskOf(r) == MaskOf(Both(l, r))
    ensures MaskOf(l) + MaskOf(r) == MaskOf(Either(l, r))
    ensures MaskOf(Group(l)) == MaskOf(l)
  {
  }

  /** The full mask means true in every supported environment. */
  lemma {:induction false} FullMask(e: Condition)
    ensures MaskOf(e) == Universe() <==> forall env :: Supported(env) ==> Holds(e, env)
  {
    forall env | Supported(env) && MaskOf(e) == Universe()
      ensures Holds(e, env)
    {
      BitsAreEnvironments(0, env);
      assert EnvironmentBit(env) in Universe();
    }
    if forall env :: Supported(env) ==> Holds(e, env) {
      forall bit: nat | bit < ENVIRONMENTS
        ensures bit in MaskOf(e)
      {
        BitsAreEnvironments(bit, EnvironmentOf(bit));
      }
    }
  }

  method IEMask() returns (mask: Mask)
    ensures mask == MaskOf(InIE)
  {
    mask := {};
    for version := MIN_VERSION to MAX_VERSION + 1
      invariant mask == set bit: nat | bit < 2 * (version - MIN_VERSION) && bit % 2 == 1
    {
      mask := mask + {EnvironmentBit(Environment(version, true))};
    }
  }

  method VersionMask(op: Comparison, wanted: nat) returns (mask: Mask)
    ensures mask == MaskOf(Version(op, wanted))
  {
    mask := {};
    for version := MIN_VERSION to MAX_VERSION + 1
      invariant mask == set bit: nat | bit < 2 * (version - MIN_VERSION) &&
                Compares(op, EnvironmentOf(bit).version, wanted)
    {
      if Compares(op, version, wanted) {
        mask := mask + {EnvironmentBit(Environment(version, false))};
        mask := mask + {EnvironmentBit(Environment(version, true))};
      }
    }
  }
}
