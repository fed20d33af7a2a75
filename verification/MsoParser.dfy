/** The parser that computes masks while it reads the text. */
module MsoParser {
  import opened Optional
  import opened MsoConditions
  import opened MsoText

  const MAX_BYTES := 1024

  class Parser {
    const input: string
    var pos: nat
    var failed: bool

    ghost predicate Valid()
      reads this
    {
      pos <= |input|
    }

    /** The tokens still to be read. */
    ghost function Ahead(): seq<Token>
      requires Valid()
      reads this
    {
      TokensFrom(input, pos)
    }

    /** The parser has failed where a walk does, or stands where it does, with the
        mask of what it read. */
    ghost predicate Reached(s: Step, mask: Mask)
      requires Valid()
      reads this
    {
      failed == s.failed && (!failed ==> Ahead() == s.rest && mask == MaskOf(s.e))
    }

    constructor (input: string)
      ensures Valid() && this.input == input && pos == 0 && !failed
    {
      this.input := input;
      pos, failed := 0, false;
    }

    method SkipSpace()
      requires Valid()
      modifies this`pos
      ensures Valid() && pos == RunEnd(input, old(pos), Space) && Ahead() == old(Ahead())
    {
      SpacesSkipped(input, pos);
      while pos < |input| && IsSpace(input[pos])
        invariant old(pos) <= pos <= |input| && RunEnd(input, pos, Space) == RunEnd(input, old(pos), Space)
      {
        pos := pos + 1;
      }
    }

    method Take(want: char) returns (taken: bool)
      requires Valid() && ClassOf(want) == Sign && SignOf(want) != Other
      modifies this`pos
      ensures Valid() && pos >= old(pos) && taken == Next(old(Ahead()), SignOf(want))
      ensures if taken then Ahead() == old(Ahead())[1..] && pos > old(pos) else Ahead() == old(Ahead())
    {
      SkipSpace();
      if pos >= |input| || input[pos] != want {
        return false;
      }
      pos := pos + 1;
      return true;
    }

    /** The word that comes next, or nothing. */
    method ReadWord() returns (word: string)
      requires Valid()
      modifies this`pos
      ensures Valid() && pos >= old(pos)
      ensures word != "" <==> old(Ahead()) != [] && old(Ahead())[0].Word?
      ensures if word == "" then Ahead() == old(Ahead())
              else pos > old(pos) && Ahead() == old(Ahead())[1..] && old(Ahead())[0] == Word(KeywordOf(word))
    {
      SkipSpace();
      var start := pos;
      while pos < |input|
        invariant start <= pos <= |input| && RunEnd(input, pos, Letter) == RunEnd(input, start, Letter)
      {
        var c := input[pos];
        if c < 'A' || c > 'Z' {
          if c < 'a' || c > 'z' {
            break;
          }
        }
        pos := pos + 1;
      }
      if pos == start {
        return "";
      }
      word := input[start..pos];
    }

    /** The number that comes next. One that is too large fails the parser. */
    method ReadNumber() returns (value: nat, ok: bool)
      requires Valid() && !failed
      modifies this
      ensures Valid() && pos >= old(pos)
      ensures ok <==> old(Ahead()) != [] && old(Ahead())[0].Number? && old(Ahead())[0].value.Some?
      ensures failed <==> old(Ahead()) != [] && old(Ahead())[0].Number? && old(Ahead())[0].value.None?
      ensures ok ==> pos > old(pos) && Ahead() == old(Ahead())[1..] && old(Ahead())[0] == Number(Some(value))
      ensures !ok && !failed ==> Ahead() == old(Ahead())
    {
      SkipSpace();
      var start, end, fits := pos, 0, false;
      value, end, fits := ScanNumber(input, start);
      pos := end;
      if !fits {
        failed := true;
        return 0, false;
      }
      return value, pos > start;
    }

    method ParseOr(depth: nat) returns (mask: Mask)
      requires Valid() && !failed && depth <= MAX_DEPTH
      modifies this
      ensures Valid() && pos >= old(pos) && Reached(OrOf(old(Ahead()), depth), mask)
      decreases |input| - pos, 6
    {
      mask := ParseAnd(depth);
      ghost var left, whole := AndOf(old(Ahead()), depth), OrOf(old(Ahead()), depth);
      var more := !failed;
      if more {
        more := Take('|');
      }
      while more
        invariant Valid() && pos >= old(pos) && (more ==> !failed && !left.failed && pos > old(pos))
        invariant OrMore(left, depth) == whole
        invariant if more then Next(left.rest, Bar) && Ahead() == left.rest[1..] && mask == MaskOf(left.e)
                  else Reached(whole, mask)
        decreases |input| - pos, more
      {
        var other := ParseAnd(depth);
        ghost var right := AndOf(left.rest[1..], depth);
        JoinedMasks(left.e, right.e);
        mask := mask + other;
        left := right.(e := Either(left.e, right.e));
        more := !failed;
        if more {
          more := Take('|');
        }
      }
    }

    method ParseAnd(depth: nat) returns (mask: Mask)
      requires Valid() && !failed && depth <= MAX_DEPTH
      modifies this
      ensures Valid() && pos >= old(pos) && (!failed ==> pos > old(pos)) && Reached(AndOf(old(Ahead()), depth), mask)
      decreases |input| - pos, 4
    {
      mask := ParseUnary(depth);
      ghost var left, whole := UnaryOf(old(Ahead()), depth), AndOf(old(Ahead()), depth);
      var more := !failed;
      if more {
        more := Take('&');
      }
      while more
        invariant Valid() && pos >= old(pos) && (!failed ==> pos > old(pos)) && (more ==> !failed && !left.failed)
        invariant AndMore(left, depth) == whole
        invariant if more then Next(left.rest, Ampersand) && Ahead() == left.rest[1..] && mask == MaskOf(left.e)
                  else Reached(whole, mask)
        decreases |input| - pos, more
      {
        var other := ParseUnary(depth);
        ghost var right := UnaryOf(left.rest[1..], depth);
        JoinedMasks(left.e, right.e);
        mask := mask * other;
        left := right.(e := Both(left.e, right.e));
        more := !failed;
        if more {
          more := Take('&');
        }
      }
    }

    method ParseUnary(depth: nat) returns (mask: Mask)
      requires Valid() && !failed && depth <= MAX_DEPTH
      modifies this
      ensures Valid() && pos >= old(pos) && (!failed ==> pos > old(pos)) && Reached(UnaryOf(old(Ahead()), depth), mask)
      decreases |input| - pos, 2
    {
      if depth >= MAX_DEPTH {
        failed := true;
        return {};
      }
      var negated := Take('!');
      if negated {
        mask := ParseUnary(depth + 1);
        InvertedMask(UnaryOf(old(Ahead())[1..], depth + 1).e);
        mask := ExclusiveOr(Universe(), mask);
        return;
      }
      var grouped := Take('(');
      if grouped {
        mask := ParseGroup(depth, old(Ahead()));
        return;
      }
      mask := ParseAtom();
    }

    /** After an opening parenthesis: an expression and the closing one. */
    method ParseGroup(depth: nat, ghost ts: seq<Token>) returns (mask: Mask)
      requires Valid() && !failed && depth < MAX_DEPTH && Next(ts, LeftParen) && Ahead() == ts[1..]
      modifies this
      ensures Valid() && pos >= old(pos) && Reached(UnaryOf(ts, depth), mask)
      decreases |input| - pos, 7
    {
      mask := ParseOr(depth + 1);
      ghost var inner := OrOf(ts[1..], depth + 1);
      JoinedMasks(inner.e, inner.e);
      var closed := Take(')');
      if !closed {
        failed := true;
      }
    }

    method ParseAtom() returns (mask: Mask)
      requires Valid() && !failed
      modifies this
      ensures Valid() && pos >= old(pos) && (!failed ==> pos > old(pos)) && Reached(AtomOf(old(Ahead())), mask)
    {
      mask := {};
      var word := ReadWord();
      if word == "" {
        failed := true;
        return;
      }
      match KeywordOf(word) {
        case TrueWord =>
          mask := Universe();
          FullMask(Always);
        case FalseWord =>
          assert MaskOf(Never) == {};
        case IEWord =>
          mask := IEMask();
        case MsoWord =>
          mask := ParseMso(old(Ahead()));
        case Compare(op) =>
          mask := ParseComparison(op, old(Ahead()));
        case OtherWord =>
          failed := true;
      }
    }

    /** After the product name: an optional version. */
    method ParseMso(ghost ts: seq<Token>) returns (mask: Mask)
      requires Valid() && !failed && Next(ts, Word(MsoWord)) && Ahead() == ts[1..]
      modifies this
      ensures Valid() && pos >= old(pos) && Reached(AtomOf(ts), mask)
    {
      mask := Universe();
      FullMask(AnyMso);
      var version, ok := ReadNumber();
      if ok {
        mask := VersionMask(Eq, version);
      }
    }

    /** After a comparison: the product name and a version. */
    method ParseComparison(op: Comparison, ghost ts: seq<Token>) returns (mask: Mask)
      requires Valid() && !failed && Next(ts, Word(Compare(op))) && op != Eq && Ahead() == ts[1..]
      modifies this
      ensures Valid() && pos >= old(pos) && Reached(AtomOf(ts), mask)
    {
      mask := {};
      var feature := ReadWord();
      if feature == "" || KeywordOf(feature) != MsoWord {
        failed := true;
        return;
      }
      assert Ahead() == ts[1..][1..];
      var version, ok := ReadNumber();
      if !ok {
        failed := true;
        return;
      }
      mask := VersionMask(op, version);
      assert Ahead() == ts[1..][2..];
    }
  }

  /** A condition of acceptable size is always true exactly when its text reads
      as an expression that holds in every supported environment. */
  method ConditionAlwaysTrue(text: string) returns (always: bool)
    ensures always <==>
            0 < |text| <= MAX_BYTES &&
            exists e :: ReadsAs(text, e) && forall env :: Supported(env) ==> Holds(e, env)
  {
    if |text| == 0 || |text| > MAX_BYTES {
      return false;
    }
    var p := new Parser(text);
    var mask := p.ParseOr(0);
    ghost var ts := TokensFrom(text, 0);
    ghost var s := OrOf(ts, 0);
    p.SkipSpace();
    OnlyReading(text, s);
    FullMask(s.e);
    AtTheEnd(text, p.pos);
    always := !p.failed && p.pos == |text| && mask == Universe();
    if always {
      assert ReadsAs(text, s.e);
    }
  }

  /** The text's tokens spell an expression within the nesting limit. */
  ghost predicate ReadsAs(text: string, e: Condition) {
    TokensFrom(text, 0) == Printed(e) && Shaped(e) && Depth(e) <= MAX_DEPTH
  }

  lemma {:induction false} OnlyReading(text: string, s: Step)
    requires s == OrOf(TokensFrom(text, 0), 0)
    ensures forall e :: ReadsAs(text, e) ==> s == Step(e, [], false)
    ensures !s.failed && s.rest == [] ==> ReadsAs(text, s.e)
  {
    forall e | ReadsAs(text, e)
      ensures s == Step(e, [], false)
    {
      AcceptsExactly(TokensFrom(text, 0), e);
    }
    AcceptsExactly(TokensFrom(text, 0), s.e);
  }

  /** Past the spaces there are no more tokens exactly at the end. */
  lemma {:induction false} AtTheEnd(text: string, i: nat)
    requires i <= |text| && RunEnd(text, i, Space) == i
    ensures TokensFrom(text, i) == [] <==> i == |text|
  {
  }
}
