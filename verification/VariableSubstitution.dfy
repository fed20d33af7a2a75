/** Replacing variable references in a token list: the indexed loop, and the
    recursion over nested blocks that it must agree with. */
module VariableSubstitution {
  import opened CustomProperties
  import opened ValueBlocks
  import opened ComponentValues

  /** What a substitution is given: the values of names, how an identifier is
      decoded, and how the ends of a text are trimmed. */
  datatype Env = Env(lookup: string -> VariableValue, decode: string -> string, trim: string -> string)

  predicate IsReference(t: Token) {
    t.kind == Variable
  }

  predicate IsVariableName(name: string) {
    "--" <= name && name != "--"
  }

  function Significant(ts: seq<Token>): seq<Token> {
    if ts == [] then []
    else (if ts[0].kind == Whitespace || ts[0].kind == Comment then [] else [ts[0]]) + Significant(ts[1..])
  }

  /** The name spelled by a token list: its only significant token. */
  function NameIn(ts: seq<Token>, decode: string -> string): string {
    var names := Significant(ts);
    if |names| == 1 && (names[0].kind == Ident || names[0].kind == CustomPropertyName) then decode(names[0].raw) else ""
  }

  function Text(text: string): VariableValue {
    VariableValue(text, ValueResolved)
  }

  /** One text after another; the first failure is the result. */
  function Joined(a: VariableValue, b: VariableValue): VariableValue {
    if a.status != ValueResolved then a
    else if b.status != ValueResolved then b
    else Text(a.text + b.text)
  }

  lemma {:induction false} JoinedAssociative(a: VariableValue, b: VariableValue, c: VariableValue)
    ensures Joined(Joined(a, b), c) == Joined(a, Joined(b, c))
  {
    assert a.text + b.text + c.text == a.text + (b.text + c.text);
  }

  lemma {:induction false} JoinedEmpty(a: VariableValue)
    ensures a.status == ValueResolved ==> Joined(a, Text("")) == a && Joined(Text(""), a) == a
    ensures a.status != ValueResolved ==> Joined(a, Text("")) == a && Joined(Text(""), a) == a
  {
    assert a.text + "" == a.text && "" + a.text == a.text;
  }

  function Trimmed(a: VariableValue, env: Env): VariableValue {
    if a.status != ValueResolved then a else Text(env.trim(a.text))
  }

  function Spaced(a: VariableValue): VariableValue {
    if a.status != ValueResolved then a else Text(" " + a.text + " ")
  }

  /** What stands for a reference: its value, or the fallback of a name
      without one. */
  function ReferenceValue(name: string, env: Env, hasFallback: bool, fallback: VariableValue): VariableValue {
    if !IsVariableName(name) then VariableValue("", ValueInvalid)
    else
      var v := env.lookup(name);
      Spaced(if v.status == ValueInvalid && hasFallback then Trimmed(fallback, env) else v)
  }

  /* Over nested blocks. */

  /** What a reference means: a name's value if it has one, set off by spaces; the
      fallback, if there is one, for a name that has none; a value that was not
      understood stays so. */
  ghost function Meant(name: string, env: Env, hasFallback: bool, fallback: VariableValue): VariableValue {
    if |name| < 3 || name[0] != '-' || name[1] != '-' then VariableValue("", ValueInvalid)
    else
      var v := env.lookup(name);
      match v.status
      case ValueResolved => VariableValue(" " + v.text + " ", ValueResolved)
      case ValueUnsupported => v
      case ValueInvalid =>
        if !hasFallback then v
        else if fallback.status != ValueResolved then fallback
        else VariableValue(" " + env.trim(fallback.text) + " ", ValueResolved)
  }

  lemma {:induction false} ReferenceMeans(name: string, env: Env, hasFallback: bool, fallback: VariableValue)
    ensures ReferenceValue(name, env, hasFallback, fallback) == Meant(name, env, hasFallback, fallback)
  {
    if |name| >= 2 {
      assert name[..2] == [name[0]] + [name[1]];
    }
  }

  /** The components before the first comma. */
  ghost function BeforeComma(cs: Components): Components {
    if cs.Nil? || IsComma(cs.head) then Nil else Cons(cs.head, BeforeComma(cs.tail))
  }

  /** The first comma and what follows it. */
  ghost function FromComma(cs: Components): Components {
    if cs.Nil? || IsComma(cs.head) then cs else FromComma(cs.tail)
  }

  ghost function SubstituteAll(cs: Components, env: Env): VariableValue
    decreases cs
  {
    if cs.Nil? then Text("") else Joined(SubstituteOne(cs.head, env), SubstituteAll(cs.tail, env))
  }

  /** A block is substituted inside; a reference is replaced by its value, or
      by what follows its first comma when it has none. */
  ghost function SubstituteOne(c: Component, env: Env): VariableValue
    decreases c
  {
    match c
    case Leaf(t) => Text(t.raw)
    case Block(open, body, closer) =>
      if IsReference(open) then
        var rest := FromComma(body);
        FromCommaSmaller(body);
        Meant(NameIn(AllTokens(BeforeComma(body)), env.decode), env, rest.Cons?,
              if rest.Cons? then SubstituteAll(rest.tail, env) else Text(""))
      else
        Joined(Text(open.raw), Joined(SubstituteAll(body, env), if closer == [] then Text("") else Text(closer[0].raw)))
  }

  lemma {:induction false} FromCommaSmaller(cs: Components)
    ensures FromComma(cs) == cs || FromComma(cs) < cs
  {
    if cs.Cons? && !IsComma(cs.head) {
      FromCommaSmaller(cs.tail);
    }
  }

  lemma {:induction false} CommaSplit(xs: Components, ys: Components)
    requires NoComma(xs) && (ys.Nil? || IsComma(ys.head))
    ensures BeforeComma(Append(xs, ys)) == xs && FromComma(Append(xs, ys)) == ys
  {
    if xs.Cons? {
      CommaSplit(xs.tail, ys);
    }
  }

  lemma {:induction false} AppendNil(xs: Components)
    ensures Append(xs, Nil) == xs
  {
    if xs.Cons? {
      AppendNil(xs.tail);
    }
  }

  /* Over the flat list. */

  /** References are replaced by their values; every other token, of whatever
      block, is copied. */
  function Flat(ts: seq<Token>, env: Env, i: nat, limit: nat): VariableValue
    requires limit <= |ts|
    decreases if i < |ts| then |ts| - i else 0, 1
  {
    if i >= limit then Text("")
    else if !IsReference(ts[i]) then Joined(Text(ts[i].raw), Flat(ts, env, i + 1, limit))
    else Joined(FlatReference(ts, env, i), Flat(ts, env, ClosingOf(ts, i) + 1, limit))
  }

  function FlatReference(ts: seq<Token>, env: Env, i: nat): VariableValue
    requires i < |ts| && IsReference(ts[i])
    decreases |ts| - i, 0
  {
    var end, comma := ClosingOf(ts, i), CommaOf(ts, i);
    ReferenceValue(ReferenceName(ts, env.decode, i), env, comma >= 0,
                   if comma >= 0 then Flat(ts, env, comma + 1, end) else Text(""))
  }

  function ReferenceName(ts: seq<Token>, decode: string -> string, i: nat): string
    requires i < |ts| && IsReference(ts[i])
  {
    NameIn(ts[i + 1..if CommaOf(ts, i) >= 0 then CommaOf(ts, i) else ClosingOf(ts, i)], decode)
  }

  lemma {:induction false} FlatSplit(ts: seq<Token>, env: Env, a: nat, b: nat, c: nat)
    requires a <= b <= c <= |ts| && Nested(ts, a, b)
    ensures Flat(ts, env, a, c) == Joined(Flat(ts, env, a, b), Flat(ts, env, b, c))
    decreases |ts| - a
  {
    if a == b {
      JoinedEmpty(Flat(ts, env, b, c));
    } else if !IsReference(ts[a]) {
      FlatSplit(ts, env, a + 1, b, c);
      JoinedAssociative(Text(ts[a].raw), Flat(ts, env, a + 1, b), Flat(ts, env, b, c));
    } else {
      var end, v := ClosingOf(ts, a), FlatReference(ts, env, a);
      if end < b {
        FlatSplit(ts, env, end + 1, b, c);
        JoinedAssociative(v, Flat(ts, env, end + 1, b), Flat(ts, env, b, c));
      } else {
        JoinedEmpty(v);
      }
    }
  }

  /** The flat loop over a range that cuts no block is the substitution of its
      components. */
  lemma {:induction false} FlatIsNested(ts: seq<Token>, env: Env, i: nat, limit: nat)
    requires i <= limit <= |ts| && Nested(ts, i, limit)
    ensures Flat(ts, env, i, limit) == SubstituteAll(Parsed(ts, i, limit), env)
    decreases |ts| - i, 2
  {
    if i < limit {
      FirstIsNested(ts, env, i, limit);
      NestedAfter(ts, i, limit);
      FlatIsNested(ts, env, After(ts, i, limit), limit);
    }
  }

  lemma {:induction false} FirstIsNested(ts: seq<Token>, env: Env, i: nat, limit: nat)
    requires i < limit <= |ts| && Nested(ts, i, limit)
    ensures Flat(ts, env, i, limit) ==
            Joined(SubstituteOne(First(ts, i, limit), env), Flat(ts, env, After(ts, i, limit), limit))
    decreases |ts| - i, 1
  {
    if IsReference(ts[i]) {
      ReferenceIsNested(ts, env, i, limit);
      ReferenceAfter(ts, env, i, limit);
    } else if Opens(ts[i].kind) {
      PlainBlock(ts, env, i, limit);
    }
  }

  lemma {:induction false} ReferenceAfter(ts: seq<Token>, env: Env, i: nat, limit: nat)
    requires i < limit <= |ts| && Nested(ts, i, limit) && IsReference(ts[i])
    ensures Flat(ts, env, ClosingOf(ts, i) + 1, limit) == Flat(ts, env, After(ts, i, limit), limit)
  {
  }

  lemma {:induction false} ReferenceIsNested(ts: seq<Token>, env: Env, i: nat, limit: nat)
    requires i < limit <= |ts| && Nested(ts, i, limit) && IsReference(ts[i])
    ensures FlatReference(ts, env, i) == SubstituteOne(First(ts, i, limit), env)
    decreases |ts| - i, 0, 1
  {
    FallbackIsNested(ts, env, i);
    FallbackStands(ts, env, i, NestedFallback(ts, env, i));
    NestedReference(ts, env, i, limit);
  }

  lemma {:induction false} FallbackStands(ts: seq<Token>, env: Env, i: nat, fallback: VariableValue)
    requires i < |ts| && IsReference(ts[i])
    requires CommaOf(ts, i) >= 0 ==> fallback == Flat(ts, env, CommaOf(ts, i) + 1, ClosingOf(ts, i))
    requires CommaOf(ts, i) < 0 ==> fallback == Text("")
    ensures FlatReference(ts, env, i) ==
            ReferenceValue(ReferenceName(ts, env.decode, i), env, CommaOf(ts, i) >= 0, fallback)
  {
  }

  lemma {:induction false} FallbackIsNested(ts: seq<Token>, env: Env, i: nat)
    requires i < |ts| && IsReference(ts[i])
    ensures CommaOf(ts, i) >= 0 ==>
              NestedFallback(ts, env, i) == Flat(ts, env, CommaOf(ts, i) + 1, ClosingOf(ts, i))
    decreases |ts| - i, 0, 0
  {
    if CommaOf(ts, i) >= 0 {
      NestedBody(ts, i, CommaOf(ts, i) + 1);
      FlatIsNested(ts, env, CommaOf(ts, i) + 1, ClosingOf(ts, i));
    }
  }

  ghost function NestedFallback(ts: seq<Token>, env: Env, i: nat): VariableValue
    requires i < |ts| && IsReference(ts[i])
  {
    var end, comma := ClosingOf(ts, i), CommaOf(ts, i);
    if comma >= 0 then SubstituteAll(Parsed(ts, comma + 1, end), env) else Text("")
  }

  lemma {:induction false} NestedReference(ts: seq<Token>, env: Env, i: nat, limit: nat)
    requires i < limit <= |ts| && Nested(ts, i, limit) && IsReference(ts[i])
    ensures SubstituteOne(First(ts, i, limit), env) ==
            ReferenceValue(ReferenceName(ts, env.decode, i), env, CommaOf(ts, i) >= 0, NestedFallback(ts, env, i))
  {
    var c := First(ts, i, limit);
    ReferenceBody(ts, i);
    assert c.open == ts[i] && c.body == Parsed(ts, i + 1, ClosingOf(ts, i));
    ReferenceMeans(ReferenceName(ts, env.decode, i), env, CommaOf(ts, i) >= 0, NestedFallback(ts, env, i));
  }

  /** The body of a reference is its name and, after the first comma, its fallback. */
  lemma {:induction false} ReferenceBody(ts: seq<Token>, i: nat)
    requires i < |ts| && IsReference(ts[i])
    ensures var end, comma := ClosingOf(ts, i), CommaOf(ts, i);
            var body := Parsed(ts, i + 1, end);
            && AllTokens(BeforeComma(body)) == ts[i + 1..if comma >= 0 then comma else end]
            && FromComma(body) == if comma >= 0 then Cons(Leaf(ts[comma]), Parsed(ts, comma + 1, end)) else Nil
  {
    var end, comma := ClosingOf(ts, i), CommaOf(ts, i);
    FirstComma(ts, i + 1, RightParenthesis);
    if comma < 0 {
      AppendNil(Parsed(ts, i + 1, end));
      CommaSplit(Parsed(ts, i + 1, end), Nil);
      ParsedReadsBack(ts, i + 1, end);
    } else {
      ParsedSplit(ts, i + 1, comma, end);
      CommaSplit(Parsed(ts, i + 1, comma), Parsed(ts, comma, end));
      ParsedReadsBack(ts, i + 1, comma);
    }
  }

  lemma {:induction false} PlainBlock(ts: seq<Token>, env: Env, i: nat, limit: nat)
    requires i < limit <= |ts| && Nested(ts, i, limit) && Opens(ts[i].kind) && !IsReference(ts[i])
    ensures Flat(ts, env, i, limit) ==
            Joined(SubstituteOne(First(ts, i, limit), env), Flat(ts, env, After(ts, i, limit), limit))
    decreases |ts| - i, 0
  {
    var end, after := ClosingOf(ts, i), After(ts, i, limit);
    var body := Parsed(ts, i + 1, end);
    var open, inner, tail := Text(ts[i].raw), Flat(ts, env, i + 1, end), Flat(ts, env, after, limit);
    NestedBody(ts, i, i + 1);
    FlatIsNested(ts, env, i + 1, end);
    FlatSplit(ts, env, i + 1, end, limit);
    if end < limit {
      CloserAt(ts, i);
      var closer := Text(ts[end].raw);
      assert First(ts, i, limit) == Block(ts[i], body, [ts[end]]);
      assert Flat(ts, env, end, limit) == Joined(closer, tail);
      JoinedAssociative(inner, closer, tail);
      JoinedAssociative(open, Joined(inner, closer), tail);
    } else {
      assert First(ts, i, limit) == Block(ts[i], body, []);
      JoinedEmpty(inner);
      JoinedAssociative(open, inner, tail);
    }
  }

  /* The indexed loop. */

  /** The index is what a scan per opener and a reading of each reference give. */
  ghost predicate Indexed(ts: seq<Token>, decode: string -> string, blocks: seq<ValueBlock>) {
    && |blocks| == |ts|
    && (forall o {:trigger Scanned(ts, o, blocks[o])} :: 0 <= o < |ts| && Opens(ts[o].kind) ==>
        Scanned(ts, o, blocks[o]))
    && (forall o {:trigger Named(ts, decode, o, blocks[o])} :: 0 <= o < |ts| && IsReference(ts[o]) ==>
        Named(ts, decode, o, blocks[o]))
  }

  predicate Named(ts: seq<Token>, decode: string -> string, o: nat, block: ValueBlock)
    requires o < |ts| && IsReference(ts[o])
  {
    block.name == ReferenceName(ts, decode, o)
  }

  method IndexValueBlocks(ts: seq<Token>, decode: string -> string) returns (blocks: seq<ValueBlock>)
    ensures Indexed(ts, decode, blocks)
  {
    blocks := IndexBlocks(ts);
    for i := 0 to |ts|
      invariant |blocks| == |ts|
      invariant forall o {:trigger Scanned(ts, o, blocks[o])} :: 0 <= o < |ts| && Opens(ts[o].kind) ==>
                  Scanned(ts, o, blocks[o])
      invariant forall o {:trigger Named(ts, decode, o, blocks[o])} :: 0 <= o < i && IsReference(ts[o]) ==>
                  Named(ts, decode, o, blocks[o])
    {
      if !IsReference(ts[i]) {
        continue;
      }
      assert Scanned(ts, i, blocks[i]);
      var name := ReadName(ts, decode, i + 1, if blocks[i].comma >= 0 then blocks[i].comma else blocks[i].end);
      ghost var before := blocks;
      blocks := blocks[i := blocks[i].(name := name)];
      assert forall o :: 0 <= o < |ts| && o != i ==> blocks[o] == before[o];
    }
  }

  /** The only significant token of a range, stopping at a second one. */
  method ReadName(ts: seq<Token>, decode: string -> string, from: nat, to: nat) returns (name: string)
    requires from <= to <= |ts|
    ensures name == NameIn(ts[from..to], decode)
  {
    var token := Token(Other, "");
    var count := 0;
    var j := from;
    while j < to
      invariant from <= j <= to && 0 <= count <= 1
      invariant |Significant(ts[from..to])| == count + |Significant(ts[j..to])|
      invariant Significant(ts[from..to]) == (if count == 1 then [token] else []) + Significant(ts[j..to])
    {
      assert ts[j..to][1..] == ts[j + 1..to];
      if ts[j].kind != Whitespace && ts[j].kind != Comment {
        count := count + 1;
        if count > 1 {
          return "";
        }
        token := ts[j];
      }
      j := j + 1;
    }
    if count == 1 && (token.kind == Ident || token.kind == CustomPropertyName) {
      return decode(token.raw);
    }
    return "";
  }

  lemma {:induction false} FlatCopies(ts: seq<Token>, env: Env, out: string, i: nat, limit: nat)
    requires i < limit <= |ts| && !IsReference(ts[i])
    ensures Joined(Text(out), Flat(ts, env, i, limit)) == Joined(Text(out + ts[i].raw), Flat(ts, env, i + 1, limit))
  {
    JoinedAssociative(Text(out), Text(ts[i].raw), Flat(ts, env, i + 1, limit));
  }

  lemma {:induction false} FlatReplaces(ts: seq<Token>, env: Env, out: string, i: nat, limit: nat, w: VariableValue)
    requires i < limit <= |ts| && IsReference(ts[i]) && Spaced(w) == FlatReference(ts, env, i)
    ensures w.status != ValueResolved ==> Joined(Text(out), Flat(ts, env, i, limit)) == w
    ensures w.status == ValueResolved ==>
              Joined(Text(out), Flat(ts, env, i, limit)) ==
              Joined(Text(out + (" " + w.text + " ")), Flat(ts, env, ClosingOf(ts, i) + 1, limit))
  {
    JoinedAssociative(Text(out), Spaced(w), Flat(ts, env, ClosingOf(ts, i) + 1, limit));
  }

  /* Nested fallbacks. */

  function Most(a: nat, b: nat): nat {
    if a < b then b else a
  }

  /** How deeply the fallbacks that a substitution goes into are nested. */
  function Entered(ts: seq<Token>, env: Env, i: nat, limit: nat): nat
    requires limit <= |ts|
    decreases if i < |ts| then |ts| - i else 0, 1
  {
    if i >= limit then 0
    else if !IsReference(ts[i]) then Entered(ts, env, i + 1, limit)
    else if FlatReference(ts, env, i).status != ValueResolved then EnteredAt(ts, env, i)
    else Most(EnteredAt(ts, env, i), Entered(ts, env, ClosingOf(ts, i) + 1, limit))
  }

  function EnteredAt(ts: seq<Token>, env: Env, i: nat): nat
    requires i < |ts| && IsReference(ts[i])
    decreases |ts| - i, 0
  {
    var name := ReferenceName(ts, env.decode, i);
    if IsVariableName(name) && env.lookup(name).status == ValueInvalid && CommaOf(ts, i) >= 0
    then 1 + Entered(ts, env, CommaOf(ts, i) + 1, ClosingOf(ts, i)) else 0
  }

  /** How deeply fallbacks are nested, used or not. */
  function Levels(ts: seq<Token>, i: nat, limit: nat): nat
    requires limit <= |ts|
    decreases if i < |ts| then |ts| - i else 0, 1
  {
    if i >= limit then 0
    else if !IsReference(ts[i]) then Levels(ts, i + 1, limit)
    else Most(LevelsAt(ts, i), Levels(ts, ClosingOf(ts, i) + 1, limit))
  }

  function LevelsAt(ts: seq<Token>, i: nat): nat
    requires i < |ts| && IsReference(ts[i])
    decreases |ts| - i, 0
  {
    if CommaOf(ts, i) >= 0 then 1 + Levels(ts, CommaOf(ts, i) + 1, ClosingOf(ts, i)) else 0
  }

  /** Whatever the values, no more fallbacks are entered than are nested. */
  lemma {:induction false} EnteredWithin(ts: seq<Token>, env: Env, i: nat, limit: nat)
    requires limit <= |ts|
    ensures Entered(ts, env, i, limit) <= Levels(ts, i, limit)
    decreases if i < |ts| then |ts| - i else 0
  {
    if i < limit {
      if IsReference(ts[i]) {
        if CommaOf(ts, i) >= 0 {
          EnteredWithin(ts, env, CommaOf(ts, i) + 1, ClosingOf(ts, i));
        }
        EnteredWithin(ts, env, ClosingOf(ts, i) + 1, limit);
      } else {
        EnteredWithin(ts, env, i + 1, limit);
      }
    }
  }

  /** The loop that copies tokens and jumps over replaced references. It gives up
      exactly where it would enter fallbacks beyond the limit. */
  method Expand(ts: seq<Token>, blocks: seq<ValueBlock>, env: Env, start: nat, limit: nat, depth: nat)
    returns (v: VariableValue)
    requires Indexed(ts, env.decode, blocks) && limit <= |ts|
    ensures v == Limited(ts, env, start, limit, depth)
    decreases if start < |ts| then |ts| - start else 0, 1
  {
    if depth >= MAX_DEPTH {
      return UNSUPPORTED;
    }
    var out := "";
    var i := start;
    WrittenFirst(ts, env, start, limit, depth);
    while i < limit
      invariant start <= i && Written(ts, env, start, limit, depth, out, i)
      decreases limit - i
    {
      var t := ts[i];
      if !IsReference(t) {
        WrittenMore(ts, env, start, limit, depth, out, i);
        out := out + t.raw;
        i := i + 1;
        continue;
      }
      var end := blocks[i].end;
      assert Scanned(ts, i, blocks[i]);
      var w := Replace(ts, blocks, env, i, depth);
      WrittenReplaced(ts, env, start, limit, depth, out, i, w);
      if w.status != ValueResolved {
        return w;
      }
      out := out + (" " + w.text + " ");
      i := end + 1;
    }
    WrittenLast(ts, env, start, limit, depth, out, i);
    return Text(env.trim(out));
  }

  /** What a substitution of a range gives at a depth. */
  function Limited(ts: seq<Token>, env: Env, start: nat, limit: nat, depth: nat): VariableValue
    requires limit <= |ts|
  {
    if depth + Entered(ts, env, start, limit) < MAX_DEPTH
    then Trimmed(Flat(ts, env, start, limit), env) else UNSUPPORTED
  }

  /** What was written so far, with what is still to come, is the substitution,
      and nothing beyond the limit was entered. It unfolds only where a proof names
      `WrittenFor`. */
  ghost predicate Written(ts: seq<Token>, env: Env, start: nat, limit: nat, depth: nat, out: string, i: nat)
    requires limit <= |ts|
  {
    forall j: nat {:trigger WrittenFor(ts, env, start, limit, depth, out, j)} ::
      j == i ==> WrittenFor(ts, env, start, limit, depth, out, j)
  }

  ghost predicate WrittenFor(ts: seq<Token>, env: Env, start: nat, limit: nat, depth: nat, out: string, i: nat)
    requires limit <= |ts|
  {
    && Flat(ts, env, start, limit) == Joined(Text(out), Flat(ts, env, i, limit))
    && Entered(ts, env, i, limit) <= Entered(ts, env, start, limit) && depth < MAX_DEPTH
    && (depth + Entered(ts, env, i, limit) < MAX_DEPTH ==> depth + Entered(ts, env, start, limit) < MAX_DEPTH)
  }

  lemma {:induction false} WrittenFirst(ts: seq<Token>, env: Env, start: nat, limit: nat, depth: nat)
    requires limit <= |ts| && depth < MAX_DEPTH
    ensures Written(ts, env, start, limit, depth, "", start)
  {
    JoinedEmpty(Flat(ts, env, start, limit));
    assert WrittenFor(ts, env, start, limit, depth, "", start);
  }

  lemma {:induction false} WrittenMore(ts: seq<Token>, env: Env, start: nat, limit: nat, depth: nat, out: string,
                                       i: nat)
    requires i < limit <= |ts| && !IsReference(ts[i]) && Written(ts, env, start, limit, depth, out, i)
    ensures Written(ts, env, start, limit, depth, out + ts[i].raw, i + 1)
  {
    assert WrittenFor(ts, env, start, limit, depth, out, i);
    FlatCopies(ts, env, out, i, limit);
    assert WrittenFor(ts, env, start, limit, depth, out + ts[i].raw, i + 1);
  }

  lemma {:induction false} WrittenReplaced(ts: seq<Token>, env: Env, start: nat, limit: nat, depth: nat, out: string,
                                           i: nat, w: VariableValue)
    requires i < limit <= |ts| && IsReference(ts[i]) && Written(ts, env, start, limit, depth, out, i)
    requires depth + EnteredAt(ts, env, i) < MAX_DEPTH ==> Spaced(w) == FlatReference(ts, env, i)
    requires depth + EnteredAt(ts, env, i) >= MAX_DEPTH ==> w == UNSUPPORTED
    ensures w.status == ValueResolved ==>
              Written(ts, env, start, limit, depth, out + (" " + w.text + " "), ClosingOf(ts, i) + 1)
    ensures w.status != ValueResolved ==> w == Limited(ts, env, start, limit, depth)
  {
    assert WrittenFor(ts, env, start, limit, depth, out, i);
    if depth + EnteredAt(ts, env, i) < MAX_DEPTH {
      FlatReplaces(ts, env, out, i, limit, w);
      if w.status == ValueResolved {
        assert WrittenFor(ts, env, start, limit, depth, out + (" " + w.text + " "), ClosingOf(ts, i) + 1);
      }
    }
  }

  lemma {:induction false} WrittenLast(ts: seq<Token>, env: Env, start: nat, limit: nat, depth: nat, out: string,
                                       i: nat)
    requires limit <= |ts| && limit <= i && Written(ts, env, start, limit, depth, out, i)
    ensures Text(env.trim(out)) == Limited(ts, env, start, limit, depth)
  {
    assert WrittenFor(ts, env, start, limit, depth, out, i);
    JoinedEmpty(Text(out));
  }

  /** What a reference is replaced by, before it is set off by spaces. */
  method Replace(ts: seq<Token>, blocks: seq<ValueBlock>, env: Env, i: nat, depth: nat) returns (v: VariableValue)
    requires Indexed(ts, env.decode, blocks) && i < |ts| && IsReference(ts[i]) && depth < MAX_DEPTH
    ensures depth + EnteredAt(ts, env, i) < MAX_DEPTH ==> Spaced(v) == FlatReference(ts, env, i)
    ensures depth + EnteredAt(ts, env, i) >= MAX_DEPTH ==> v == UNSUPPORTED
    decreases |ts| - i, 0
  {
    assert Scanned(ts, i, blocks[i]) && Named(ts, env.decode, i, blocks[i]);
    var end, comma, name := blocks[i].end, blocks[i].comma, blocks[i].name;
    if !IsVariableName(name) {
      return INVALID;
    }
    v := env.lookup(name);
    if v.status == ValueInvalid && comma >= 0 {
      v := Expand(ts, blocks, env, comma + 1, end, depth + 1);
    }
  }

  /** The indexed substitution of a whole value is the recursive substitution of
      its components, whether or not an index was kept, unless it would enter
      fallbacks beyond the limit. */
  method SubstituteIndexedTokens(ts: seq<Token>, kept: seq<ValueBlock>, env: Env, depth: nat) returns (v: VariableValue)
    requires |kept| == |ts| ==> Indexed(ts, env.decode, kept)
    ensures v == if depth + Entered(ts, env, 0, |ts|) < MAX_DEPTH
                 then Trimmed(SubstituteAll(Parsed(ts, 0, |ts|), env), env) else UNSUPPORTED
  {
    if depth >= MAX_DEPTH {
      return UNSUPPORTED;
    }
    var blocks := kept;
    if |blocks| != |ts| {
      blocks := IndexValueBlocks(ts, env.decode);
    }
    v := Expand(ts, blocks, env, 0, |ts|, depth);
    FlatIsNested(ts, env, 0, |ts|);
  }
}
