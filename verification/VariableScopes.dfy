/** Resolving custom properties once their cycles are marked. */
module VariableScopes {
  import opened CustomProperties
  import opened ValueBlocks
  import opened ComponentValues
  import opened VariableSubstitution
  import opened VariableReferences

  /** A value that stands for something outside the definitions. */
  datatype Keyword = NoKeyword | Inherit | Initial | Revert

  /** A definition whose value could be read, or one that cannot be used. */
  datatype Definition = Usable(tokens: seq<Token>, keyword: Keyword) | Unusable

  type Definitions = map<string, Definition>
  type Values = map<string, VariableValue>

  /** The graph of references between usable definitions. */
  function Graph(defs: Definitions, decode: string -> string): Dependencies {
    map n | n in defs && defs[n].Usable? :: Refs(defs[n].tokens, decode)
  }

  function Unreadable(defs: Definitions): Values {
    map n | n in defs && defs[n].Unusable? :: UNSUPPORTED
  }

  /** The value is this one, or was given up on. */
  predicate Near(v: VariableValue, exact: VariableValue) {
    v == exact || v.status == ValueUnsupported
  }

  /** Definitions, and what the enclosing scope says of other names. */
  datatype Scope = Scope(defs: Definitions, deps: Dependencies, cyclic: set<string>, fixed: Values,
                         outer: string -> VariableValue, decode: string -> string, trim: string -> string)
  {
    /** The graph is that of the definitions, and no cycle is left unmarked. */
    ghost predicate Valid() {
      && deps == Graph(defs, decode) && fixed == Unreadable(defs)
      && Broken(deps, cyclic) && cyclic <= deps.Keys
    }

    function Initially(): Values {
      fixed + map n | n in cyclic :: INVALID
    }

    predicate Local(n: string) {
      n in deps || n in fixed
    }

    /** The name is evaluated from its tokens. */
    predicate Evaluated(n: string) {
      n in deps && n !in cyclic && n !in fixed && n in defs && defs[n].Usable?
    }

    function Lookup(values: Values, n: string): VariableValue {
      if n in values then values[n] else outer(n)
    }

    /** What a substitution is given when the values are these. */
    function EnvOf(values: Values): Env {
      Env((n: string) => Lookup(values, n), decode, trim)
    }

    /** The value that the definition of `n` gives it where names have these values. */
    function ValueIn(env: Env, n: string): VariableValue
      requires n in defs && defs[n].Usable?
    {
      match defs[n].keyword
      case Inherit => outer(n)
      case Initial => INVALID
      case Revert => UNSUPPORTED
      case NoKeyword => Trimmed(Flat(defs[n].tokens, env, 0, |defs[n].tokens|), env)
    }

    /** Every definition has the value it defines, among these very values. */
    ghost predicate Solves(values: Values) {
      && values.Keys == deps.Keys + fixed.Keys
      && (forall n :: n in Initially() ==> n in values && values[n] == Initially()[n])
      && (forall n :: Evaluated(n) ==> n in values && values[n] == ValueIn(EnvOf(values), n))
    }

    /* Chains of names that refer to one another. */

    /** Unmarked names, each referring to the next. */
    ghost predicate Unmarked(chain: seq<string>) {
      && Chain(deps, chain) && !Repeats(chain)
      && forall i :: 0 <= i < |chain| ==> chain[i] in deps && chain[i] !in cyclic
    }

    /** Such names in a scope, unfolded only where a proof names `OpenFor`. */
    ghost predicate Open(chain: seq<string>) {
      forall c {:trigger OpenFor(c)} :: c == chain ==> OpenFor(c)
    }

    ghost predicate OpenFor(chain: seq<string>) {
      Valid() && Unmarked(chain)
    }

    /** `n` may be asked for at the end of the chain. */
    predicate Next(chain: seq<string>, n: string) {
      chain != [] && n in deps ==> Edge(deps, chain[|chain| - 1], n)
    }

    /** A name that is asked for is not being evaluated already. */
    lemma {:induction false} NoReentry(chain: seq<string>, n: string)
      requires Broken(deps, cyclic) && Unmarked(chain) && n in deps && n !in cyclic && Next(chain, n)
      ensures n !in chain && Unmarked(chain + [n])
    {
      forall i | 0 <= i < |chain|
        ensures chain[i] != n
      {
        if chain[i] == n {
          CycleCloses(chain, i, n);
          MarkedOnCycle(chain[i..] + [n]);
        }
      }
      PathLonger(chain, n);
    }

    lemma {:induction false} PathLonger(chain: seq<string>, n: string)
      requires Chain(deps, chain) && !Repeats(chain) && n in deps && n !in chain && Next(chain, n)
      ensures Chain(deps, chain + [n]) && !Repeats(chain + [n])
    {
      var more := chain + [n];
      assert forall i, j :: 0 <= i < j < |more| ==> more[i] != more[j];
    }

    /** Coming back to a name on a chain closes a cycle. */
    lemma {:induction false} CycleCloses(chain: seq<string>, i: nat, n: string)
      requires Chain(deps, chain) && i < |chain| && chain[i] == n && Edge(deps, chain[|chain| - 1], n)
      ensures Cycle(deps, chain[i..] + [n])
    {
      var cycle := chain[i..] + [n];
      assert forall k :: 0 <= k < |chain| - i ==> cycle[k] == chain[i + k];
    }

    lemma {:induction false} MarkedOnCycle(cycle: seq<string>)
      requires Broken(deps, cyclic) && Cycle(deps, cycle)
      ensures exists k :: 0 <= k < |cycle| && cycle[k] in cyclic
    {
    }

    /** How many definitions are not on a chain. */
    ghost function Room(chain: seq<string>): nat {
      |deps.Keys - (set m | m in chain)|
    }

    lemma {:induction false} RoomShrinks(chain: seq<string>, n: string)
      requires n in deps && n !in chain
      ensures Room(chain + [n]) < Room(chain)
    {
      var all, some := deps.Keys - (set m | m in chain), deps.Keys - (set m | m in chain + [n]);
      assert some == all - {n} && n in all;
    }

    lemma {:induction false} OpenNext(chain: seq<string>, n: string)
      requires Open(chain) && Evaluated(n) && Next(chain, n)
      ensures n !in chain && Open(chain + [n]) && Room(chain + [n]) < Room(chain)
      ensures deps[n] == Refs(defs[n].tokens, decode) && forall r :: r in deps[n] ==> Next(chain + [n], r)
    {
      assert OpenFor(chain);
      NoReentry(chain, n);
      RoomShrinks(chain, n);
      assert OpenFor(chain + [n]);
    }

    /* The solution. */

    /** The value of `n`, asked for at the end of a chain. */
    ghost function SolveAt(chain: seq<string>, n: string): VariableValue
      decreases Room(chain)
    {
      if n in Initially() then Initially()[n]
      else if !Evaluated(n) || n in chain then outer(n)
      else
        RoomShrinks(chain, n);
        ValueIn(Env((r: string) => SolveAt(chain + [n], r), decode, trim), n)
    }

    ghost function SolveEnv(chain: seq<string>): Env {
      Env((r: string) => SolveAt(chain, r), decode, trim)
    }

    ghost function Solution(): Values {
      map n | n in deps.Keys + fixed.Keys :: SolveAt([], n)
    }

    lemma {:induction false} SolveStep(chain: seq<string>, n: string)
      requires Evaluated(n) && n !in chain
      ensures SolveAt(chain, n) == ValueIn(SolveEnv(chain + [n]), n)
    {
      assert n !in Initially();
      var e := Env((r: string) => SolveAt(chain + [n], r), decode, trim);
      var ts := defs[n].tokens;
      FlatDepends(ts, e, SolveEnv(chain + [n]), 0, |ts|);
    }

    /** Equal references give equal values. */
    lemma {:induction false} SameValue(e: Env, f: Env, n: string)
      requires n in defs && defs[n].Usable? && Agree(defs[n].tokens, e, f)
      ensures ValueIn(e, n) == ValueIn(f, n)
    {
      FlatDepends(defs[n].tokens, e, f, 0, |defs[n].tokens|);
    }

    /** It does not matter who asks. */
    lemma {:induction false} SolveSame(a: seq<string>, b: seq<string>, n: string)
      requires Open(a) && Open(b) && Next(a, n) && Next(b, n)
      ensures SolveAt(a, n) == SolveAt(b, n)
      decreases Room(a)
    {
      if Evaluated(n) {
        OpenNext(a, n);
        OpenNext(b, n);
        forall r | r in deps[n]
          ensures SolveAt(a + [n], r) == SolveAt(b + [n], r)
        {
          SolveSame(a + [n], b + [n], r);
        }
        SolveStep(a, n);
        SolveStep(b, n);
        SameValue(SolveEnv(a + [n]), SolveEnv(b + [n]), n);
      } else {
        NotEvaluated(a, b, n);
      }
    }

    lemma {:induction false} NotEvaluated(a: seq<string>, b: seq<string>, n: string)
      requires !Evaluated(n)
      ensures SolveAt(a, n) == SolveAt(b, n)
    {
    }

    lemma {:induction false} OpenEmpty()
      requires Valid()
      ensures Open([])
    {
      assert OpenFor([]);
    }

    lemma {:induction false} LookupSolution(n: string)
      requires Valid()
      ensures Lookup(Solution(), n) == SolveAt([], n)
    {
      assert n in Initially() ==> n in deps.Keys + fixed.Keys;
    }

    lemma {:induction false} SolutionAt(n: string)
      requires Valid() && Evaluated(n)
      ensures n in Solution() && Solution()[n] == ValueIn(EnvOf(Solution()), n)
    {
      OpenEmpty();
      OpenNext([], n);
      assert [] + [n] == [n];
      forall r | r in deps[n]
        ensures SolveEnv([n]).lookup(r) == EnvOf(Solution()).lookup(r)
      {
        SolveSame([n], [], r);
        LookupSolution(r);
      }
      SolveStep([], n);
      SameValue(SolveEnv([n]), EnvOf(Solution()), n);
    }

    /** There is a solution. */
    lemma {:induction false} SolutionSolves()
      requires Valid()
      ensures Solves(Solution())
    {
      forall n | Evaluated(n)
        ensures n in Solution() && Solution()[n] == ValueIn(EnvOf(Solution()), n)
      {
        SolutionAt(n);
      }
      assert forall n :: n in Initially() ==> n in deps.Keys + fixed.Keys;
    }

    /** Every solution has the value that is computed at the end of any chain. */
    lemma {:induction false} SolvedAt(v: Values, chain: seq<string>, n: string)
      requires Open(chain) && Next(chain, n) && Solves(v) && Valid()
      ensures Lookup(v, n) == SolveAt(chain, n)
      decreases Room(chain)
    {
      if Evaluated(n) {
        OpenNext(chain, n);
        forall r | r in deps[n]
          ensures EnvOf(v).lookup(r) == SolveEnv(chain + [n]).lookup(r)
        {
          SolvedAt(v, chain + [n], r);
        }
        SolveStep(chain, n);
        SameValue(EnvOf(v), SolveEnv(chain + [n]), n);
      } else {
        SolvedOtherwise(v, chain, n);
      }
    }

    lemma {:induction false} SolvedOtherwise(v: Values, chain: seq<string>, n: string)
      requires Valid() && Solves(v) && !Evaluated(n)
      ensures Lookup(v, n) == SolveAt(chain, n)
    {
      assert n in deps || n in fixed ==> n in Initially();
    }

    /** There is no other, whatever the order of evaluation. */
    lemma {:induction false} UniqueSolution(v: Values)
      requires Valid() && Solves(v)
      ensures v == Solution()
    {
      OpenEmpty();
      forall n | n in v
        ensures v[n] == Solution()[n]
      {
        SolvedAt(v, [], n);
      }
    }

    /** What the solution means: each definition has its substitution over nested
        blocks, with references looked up in the solution itself. */
    lemma {:induction false} SolutionMeans(n: string)
      requires Valid() && n in defs
      ensures var values := Solution();
              && n in values
              && (defs[n].Unusable? ==> values[n] == UNSUPPORTED)
              && (n in cyclic ==> values[n] == INVALID)
              && (defs[n].Usable? && n !in cyclic ==>
                    match defs[n].keyword
                    case Inherit => values[n] == outer(n)
                    case Initial => values[n] == INVALID
                    case Revert => values[n] == UNSUPPORTED
                    case NoKeyword =>
                      var whole := SubstituteAll(Parsed(defs[n].tokens, 0, |defs[n].tokens|), EnvOf(values));
                      values[n] == if whole.status != ValueResolved then whole
                                   else VariableValue(trim(whole.text), ValueResolved))
    {
      SolutionSolves();
      assert n in fixed || n in cyclic ==> n in Initially();
      if Evaluated(n) && defs[n].keyword == NoKeyword {
        FlatIsNested(defs[n].tokens, EnvOf(Solution()), 0, |defs[n].tokens|);
      }
    }

    /* How deep evaluation goes. */

    /** How far evaluating `n` goes beyond `n` itself: one for a reference, or the
        fallbacks nested in its value. */
    function Reach(n: string): nat
      requires n in defs && defs[n].Usable?
    {
      var ts := defs[n].tokens;
      Most(if Refs(ts, decode) == [] then 0 else 1, Levels(ts, 0, |ts|))
    }

    /** However `n` is asked for, its evaluation stays below the limit. */
    ghost predicate Shallow(n: string)
      requires n in defs && defs[n].Usable?
    {
      forall chain {:trigger Open(chain)} ::
        Open(chain) && chain != [] && chain[|chain| - 1] == n ==> |chain| + Reach(n) <= MAX_DEPTH
    }

    /** From `n` to the last name by references between names that are evaluated. */
    ghost predicate Leads(path: seq<string>, n: string) {
      && path != [] && path[0] == n && Chain(deps, path)
      && forall i :: 0 <= i < |path| ==> Evaluated(path[i])
    }

    /** Everything that the value of `n` can depend on stays below the limit. */
    ghost predicate Safe(n: string) {
      Evaluated(n) ==> forall path {:trigger Leads(path, n)} :: Leads(path, n) ==> Shallow(path[|path| - 1])
    }

    lemma {:induction false} SafeIsShallow(n: string)
      requires Safe(n) && Evaluated(n)
      ensures Shallow(n)
    {
      assert Leads([n], n);
    }

    lemma {:induction false} SafeRefs(n: string, r: string)
      requires Safe(n) && Evaluated(n) && r in deps[n]
      ensures Safe(r)
    {
      if Evaluated(r) {
        forall path | Leads(path, r)
          ensures Shallow(path[|path| - 1])
        {
          var more := [n] + path;
          assert Edge(deps, n, r);
          forall i, j | 0 <= i < |more| && j == i + 1 < |more|
            ensures Edge(deps, more[i], more[j])
          {
            assert i > 0 ==> more[i] == path[i - 1] && more[j] == path[i];
          }
          assert Leads(more, n);
        }
      }
    }

    /** A chain has no more names than there are definitions. */
    lemma {:induction false} ChainFits(chain: seq<string>)
      requires !Repeats(chain) && forall i :: 0 <= i < |chain| ==> chain[i] in deps
      ensures |chain| <= |deps|
    {
      var names := set m | m in chain;
      NamesCounted(chain);
      CountWithin(names, deps.Keys);
    }

    /** Few definitions with few nested fallbacks are all safe. */
    lemma {:induction false} FewAreSafe(n: string, reach: nat)
      requires |deps| + reach <= MAX_DEPTH && forall m {:trigger Reach(m)} :: Evaluated(m) ==> Reach(m) <= reach
      ensures Safe(n)
    {
      forall path | Leads(path, n)
        ensures Shallow(path[|path| - 1])
      {
        forall chain | Open(chain) && chain != [] && chain[|chain| - 1] == path[|path| - 1]
          ensures |chain| + Reach(path[|path| - 1]) <= MAX_DEPTH
        {
          assert OpenFor(chain);
          ChainFits(chain);
        }
      }
    }

    /* The state of an evaluation. */

    /** The value of `n` is that of the solution, or was given up on; it was not
        where `n` is safe. */
    ghost predicate Right(exact: Values, n: string, v: VariableValue) {
      Near(v, Lookup(exact, n)) && (Safe(n) ==> v == Lookup(exact, n))
    }

    ghost predicate Respects(exact: Values, values: Values) {
      && values.Keys <= deps.Keys + fixed.Keys && Initially().Keys <= values.Keys
      && forall n {:trigger Right(exact, n, values[n])} :: n in values ==> Right(exact, n, values[n])
    }

    /** Values so far, and the names being evaluated, each asked for by the one
        before. It unfolds only where a proof names `SteadyFor`. */
    ghost predicate Steady(exact: Values, values: Values, active: seq<string>) {
      forall a {:trigger SteadyFor(exact, values, a)} :: a == active ==> SteadyFor(exact, values, a)
    }

    ghost predicate SteadyFor(exact: Values, values: Values, active: seq<string>) {
      && Open(active) && Valid() && Solves(exact) && Respects(exact, values)
      && forall i :: 0 <= i < |active| ==> active[i] !in values
    }

    lemma {:induction false} BeginSteady(exact: Values)
      requires Valid() && Solves(exact)
      ensures Steady(exact, Initially(), [])
    {
      OpenEmpty();
      assert forall n :: n in Initially() ==> Right(exact, n, Initially()[n]);
      assert SteadyFor(exact, Initially(), []);
    }

    lemma {:induction false} EnterSteady(exact: Values, values: Values, active: seq<string>, n: string)
      requires Steady(exact, values, active) && n in deps && n !in values && Next(active, n)
      ensures Evaluated(n) && n !in active && Steady(exact, values, active + [n]) && Room(active + [n]) < Room(active)
      ensures deps[n] == Refs(defs[n].tokens, decode) && Open(active)
    {
      assert SteadyFor(exact, values, active);
      assert n in cyclic || n in fixed ==> n in Initially();
      OpenNext(active, n);
      NoneYet(values, active, n);
      assert SteadyFor(exact, values, active + [n]);
    }

    lemma {:induction false} NoneYet(values: Values, active: seq<string>, n: string)
      requires n !in values && forall i :: 0 <= i < |active| ==> active[i] !in values
      ensures forall i :: 0 <= i < |active + [n]| ==> (active + [n])[i] !in values
    {
    }

    lemma {:induction false} LeaveSteady(exact: Values, values: Values, entered: seq<string>, active: seq<string>,
                                         n: string, v: VariableValue)
      requires Steady(exact, values, entered) && entered == active + [n] && Open(active) && n !in active && n in deps
      requires Right(exact, n, v)
      ensures Steady(exact, values[n := v], active) && n !in values
    {
      assert SteadyFor(exact, values, entered) && entered[|active|] == n;
      RespectsNext(exact, values, n, v);
      NoneLeft(values, active, n, v);
      assert SteadyFor(exact, values[n := v], active);
    }

    lemma {:induction false} NoneLeft(values: Values, active: seq<string>, n: string,
                                      v: VariableValue)
      requires n !in active && forall i :: 0 <= i < |active + [n]| ==> (active + [n])[i] !in values
      ensures forall i :: 0 <= i < |active| ==> active[i] !in values[n := v]
    {
      assert forall i :: 0 <= i < |active| ==> (active + [n])[i] == active[i];
    }

    lemma {:induction false} RespectsNext(exact: Values, values: Values, n: string, v: VariableValue)
      requires Respects(exact, values) && n in deps && n !in values && Right(exact, n, v)
      ensures Respects(exact, values[n := v])
    {
      var more := values[n := v];
      forall m | m in more
        ensures Right(exact, m, more[m])
      {
        assert m != n ==> Right(exact, m, values[m]);
      }
    }

    lemma {:induction false} SteadyFacts(exact: Values, values: Values, active: seq<string>)
      requires Steady(exact, values, active)
      ensures Valid() && Solves(exact) && values.Keys <= deps.Keys + fixed.Keys && fixed.Keys <= values.Keys
      ensures forall n {:trigger Right(exact, n, values[n])} :: n in values ==> Right(exact, n, values[n])
    {
      assert SteadyFor(exact, values, active);
      assert forall n :: n in fixed ==> n in Initially();
    }

    /** Safe names are never asked for beyond the limit. */
    lemma {:induction false} SafeInside(exact: Values, values: Values, active: seq<string>, n: string)
      requires Steady(exact, values, active) && active != [] && active[|active| - 1] == n && Evaluated(n) && Safe(n)
      ensures |active| + Reach(n) <= MAX_DEPTH
    {
      assert SteadyFor(exact, values, active);
      SafeIsShallow(n);
    }

    /* The substitution that resolves names on the way. */

    /** Every name in the value can be asked for and is safe. */
    ghost predicate AllSafe(ts: seq<Token>, asked: nat) {
      forall r :: r in Refs(ts, decode) ==> asked < MAX_DEPTH && Safe(r)
    }

    /** What was written so far, with what is still to come, is the substitution.
        It unfolds only where a proof names `CopiedFor`. */
    ghost predicate Copied(exact: Values, ts: seq<Token>, start: nat, limit: nat, out: string, i: nat)
      requires limit <= |ts|
    {
      forall j: nat {:trigger CopiedFor(exact, ts, start, limit, out, j)} ::
        j == i ==> CopiedFor(exact, ts, start, limit, out, j)
    }

    ghost predicate CopiedFor(exact: Values, ts: seq<Token>, start: nat, limit: nat, out: string, i: nat)
      requires limit <= |ts|
    {
      && Flat(ts, EnvOf(exact), start, limit) == Joined(Text(out), Flat(ts, EnvOf(exact), i, limit))
      && Levels(ts, i, limit) <= Levels(ts, start, limit)
    }

    lemma {:induction false} ExpandStarts(exact: Values, ts: seq<Token>, start: nat, limit: nat)
      requires limit <= |ts|
      ensures Copied(exact, ts, start, limit, "", start)
    {
      JoinedEmpty(Flat(ts, EnvOf(exact), start, limit));
      assert CopiedFor(exact, ts, start, limit, "", start);
    }

    lemma {:induction false} CopiedMore(exact: Values, ts: seq<Token>, start: nat, limit: nat, out: string, i: nat)
      requires i < limit <= |ts| && !IsReference(ts[i]) && Copied(exact, ts, start, limit, out, i)
      ensures Copied(exact, ts, start, limit, out + ts[i].raw, i + 1)
    {
      assert CopiedFor(exact, ts, start, limit, out, i);
      FlatCopies(ts, EnvOf(exact), out, i, limit);
      assert CopiedFor(exact, ts, start, limit, out + ts[i].raw, i + 1);
    }

    /** The range has this value, unless it was given up on; it was not where safe.
        This and the next unfold only where a proof names their last step. */
    ghost predicate Expanded(exact: Values, ts: seq<Token>, start: nat, limit: nat, v: VariableValue, safe: bool)
      requires limit <= |ts|
    {
      forall u {:trigger ExpandedFor(exact, ts, start, limit, u, safe)} ::
        u == v ==> ExpandedFor(exact, ts, start, limit, u, safe)
    }

    ghost predicate ExpandedFor(exact: Values, ts: seq<Token>, start: nat, limit: nat, v: VariableValue, safe: bool)
      requires limit <= |ts|
    {
      var whole := Trimmed(Flat(ts, EnvOf(exact), start, limit), EnvOf(exact));
      Near(v, whole) && (safe ==> v == whole)
    }

    ghost predicate Replaced(exact: Values, ts: seq<Token>, i: nat, v: VariableValue, safe: bool)
      requires i < |ts| && IsReference(ts[i])
    {
      forall u {:trigger ReplacedFor(exact, ts, i, u, safe)} :: u == v ==> ReplacedFor(exact, ts, i, u, safe)
    }

    ghost predicate ReplacedFor(exact: Values, ts: seq<Token>, i: nat, v: VariableValue, safe: bool)
      requires i < |ts| && IsReference(ts[i])
    {
      && (v.status != ValueUnsupported ==> Spaced(v) == FlatReference(ts, EnvOf(exact), i))
      && (safe ==> Spaced(v) == FlatReference(ts, EnvOf(exact), i))
    }

    /** Giving up is always allowed where it is not safe. */
    lemma {:induction false} GivenUp(exact: Values, ts: seq<Token>, start: nat, limit: nat)
      requires limit <= |ts|
      ensures Expanded(exact, ts, start, limit, UNSUPPORTED, false)
    {
      assert ExpandedFor(exact, ts, start, limit, UNSUPPORTED, false);
    }

    lemma {:induction false} ReplacedUnnamed(exact: Values, ts: seq<Token>, i: nat, safe: bool)
      requires i < |ts| && IsReference(ts[i]) && !IsVariableName(ReferenceName(ts, decode, i))
      ensures Replaced(exact, ts, i, INVALID, safe)
    {
      assert ReplacedFor(exact, ts, i, INVALID, safe);
    }

    /** A value that the definition gives is right. */
    lemma {:induction false} EvaluatedRight(exact: Values, n: string, v: VariableValue)
      requires Solves(exact) && Evaluated(n)
      requires match defs[n].keyword
               case Inherit => v == outer(n)
               case Initial => v == INVALID
               case Revert => v == UNSUPPORTED
               case NoKeyword => Expanded(exact, defs[n].tokens, 0, |defs[n].tokens|, v, Safe(n))
      ensures Right(exact, n, v)
    {
      if defs[n].keyword == NoKeyword {
        assert ExpandedFor(exact, defs[n].tokens, 0, |defs[n].tokens|, v, Safe(n));
      }
    }

    lemma {:induction false} LevelsInside(exact: Values, ts: seq<Token>, start: nat, limit: nat, out: string, i: nat)
      requires i < limit <= |ts| && IsReference(ts[i]) && Copied(exact, ts, start, limit, out, i)
      ensures LevelsAt(ts, i) <= Levels(ts, start, limit)
    {
      assert CopiedFor(exact, ts, start, limit, out, i);
    }

    lemma {:induction false} CopiedReplaced(exact: Values, ts: seq<Token>, start: nat, limit: nat, out: string, i: nat,
                                            v: VariableValue, safe: bool)
      requires i < limit <= |ts| && IsReference(ts[i]) && Copied(exact, ts, start, limit, out, i) &&
               Replaced(exact, ts, i, v, safe)
      ensures v.status == ValueResolved ==>
                Copied(exact, ts, start, limit, out + (" " + v.text + " "), ClosingOf(ts, i) + 1)
      ensures v.status != ValueResolved ==> Expanded(exact, ts, start, limit, v, safe)
    {
      assert CopiedFor(exact, ts, start, limit, out, i) && ReplacedFor(exact, ts, i, v, safe);
      if Spaced(v) == FlatReference(ts, EnvOf(exact), i) {
        FlatReplaces(ts, EnvOf(exact), out, i, limit, v);
        if v.status == ValueResolved {
          assert CopiedFor(exact, ts, start, limit, out + (" " + v.text + " "), ClosingOf(ts, i) + 1);
        }
      }
      if v.status != ValueResolved {
        assert ExpandedFor(exact, ts, start, limit, v, safe);
      }
    }

    lemma {:induction false} ExpandEnds(exact: Values, ts: seq<Token>, start: nat, limit: nat, out: string, i: nat,
                                        safe: bool)
      requires limit <= |ts| && limit <= i && Copied(exact, ts, start, limit, out, i)
      ensures Expanded(exact, ts, start, limit, Text(trim(out)), safe)
    {
      assert CopiedFor(exact, ts, start, limit, out, i);
      JoinedEmpty(Text(out));
      assert ExpandedFor(exact, ts, start, limit, Text(trim(out)), safe);
    }

    lemma {:induction false} ReplacedByValue(exact: Values, ts: seq<Token>, i: nat, v: VariableValue, safe: bool)
      requires i < |ts| && IsReference(ts[i]) && IsVariableName(ReferenceName(ts, decode, i))
      requires Near(v, Lookup(exact, ReferenceName(ts, decode, i)))
      requires safe ==> v == Lookup(exact, ReferenceName(ts, decode, i))
      requires v.status != ValueInvalid || CommaOf(ts, i) < 0
      ensures Replaced(exact, ts, i, v, safe)
    {
      assert ReplacedFor(exact, ts, i, v, safe);
    }

    lemma {:induction false} ReplacedByFallback(exact: Values, ts: seq<Token>, i: nat, after: nat, end: nat,
                                                v: VariableValue,
                                                safe: bool)
      requires i < |ts| && IsReference(ts[i]) && IsVariableName(ReferenceName(ts, decode, i))
      requires after == CommaOf(ts, i) + 1 && end == ClosingOf(ts, i) && CommaOf(ts, i) >= 0
      requires Lookup(exact, ReferenceName(ts, decode, i)).status == ValueInvalid
      requires Expanded(exact, ts, after, end, v, safe)
      ensures Replaced(exact, ts, i, v, safe)
    {
      assert ExpandedFor(exact, ts, after, end, v, safe);
      FallbackIs(ts, EnvOf(exact), i, after, end, Trimmed(Flat(ts, EnvOf(exact), after, end), EnvOf(exact)));
      assert ReplacedFor(exact, ts, i, v, safe);
    }
  }

  lemma {:induction false} FallbackIs(ts: seq<Token>, env: Env, i: nat, after: nat, end: nat, v: VariableValue)
    requires i < |ts| && IsReference(ts[i]) && IsVariableName(ReferenceName(ts, env.decode, i))
    requires after == CommaOf(ts, i) + 1 && end == ClosingOf(ts, i) && CommaOf(ts, i) >= 0
    requires env.lookup(ReferenceName(ts, env.decode, i)).status == ValueInvalid
    requires v == Trimmed(Flat(ts, env, after, end), env)
    ensures Spaced(v) == FlatReference(ts, env, i)
  {
  }

  lemma {:induction false} BlockAt(ts: seq<Token>, decode: string -> string, blocks: seq<ValueBlock>, i: nat)
    requires Indexed(ts, decode, blocks) && i < |ts| && IsReference(ts[i])
    ensures |blocks| == |ts| && blocks[i].end == ClosingOf(ts, i) && blocks[i].comma == CommaOf(ts, i)
    ensures blocks[i].name == ReferenceName(ts, decode, i)
  {
    assert Scanned(ts, i, blocks[i]) && Named(ts, decode, i, blocks[i]);
  }

  lemma {:induction false} FallbackLevels(ts: seq<Token>, i: nat, after: nat, end: nat)
    requires i < |ts| && IsReference(ts[i]) && after == CommaOf(ts, i) + 1 && end == ClosingOf(ts, i)
    requires CommaOf(ts, i) >= 0
    ensures i < after <= end <= |ts| && LevelsAt(ts, i) == 1 + Levels(ts, after, end)
  {
  }

  lemma {:induction false} NamesCounted(names: seq<string>)
    requires !Repeats(names)
    ensures |set m | m in names| == |names|
  {
    if names != [] {
      var rest, last := names[..|names| - 1], names[|names| - 1];
      assert forall i, j :: 0 <= i < j < |rest| ==> names[i] != names[j];
      NamesCounted(rest);
      assert last !in rest;
      assert (set m | m in names) == (set m | m in rest) + {last};
    }
  }

  lemma {:induction false} CountWithin(a: set<string>, b: set<string>)
    requires a <= b
    ensures |a| <= |b|
  {
    assert b == a + (b - a);
  }

  /** A search that met its limit had many definitions. */
  lemma {:induction false} DeepNeedsMany(deps: Dependencies, names: seq<string>)
    requires Deep(deps, names)
    ensures |deps| >= MAX_DEPTH
  {
    forall i | 0 <= i < |names|
      ensures names[i] in deps
    {
      if i > 0 {
        assert Edge(deps, names[i - 1], names[i]);
      } else {
        assert Edge(deps, names[0], names[1]);
      }
    }
    NamesCounted(names);
    CountWithin((set m | m in names), deps.Keys);
  }

  /** The evaluation of every definition, each at most once. */
  class Resolver {
    const scope: Scope
    var values: Values
    /** The names being evaluated, outermost first. */
    ghost var active: seq<string>
    /** The solution of the scope. */
    ghost const exact: Values

    ghost predicate Ready()
      reads this
    {
      scope.Steady(exact, values, active)
    }

    /** These tokens are the value of the name being evaluated. */
    ghost predicate AskedBy(ts: seq<Token>)
      reads this
    {
      && active != [] && active[|active| - 1] in scope.deps
      && Refs(ts, scope.decode) == scope.deps[active[|active| - 1]]
    }

    constructor (scope: Scope)
      requires scope.Valid()
      ensures Ready() && active == [] && this.scope == scope && exact == scope.Solution()
    {
      scope.SolutionSolves();
      this.scope, exact := scope, scope.Solution();
      values := scope.Initially();
      active := [];
      scope.BeginSteady(scope.Solution());
    }

    method ResolveName(n: string, depth: nat) returns (v: VariableValue)
      requires Ready() && scope.Next(active, n) && depth == |active|
      modifies this
      ensures Ready() && active == old(active) && old(values).Keys <= values.Keys
      ensures Near(v, scope.Lookup(exact, n))
      ensures depth < MAX_DEPTH && scope.Safe(n) ==> v == scope.Lookup(exact, n)
      ensures depth < MAX_DEPTH && scope.Local(n) ==> n in values && v == values[n]
      decreases scope.Room(active), 2
    {
      if depth >= MAX_DEPTH {
        return UNSUPPORTED;
      }
      scope.SteadyFacts(exact, values, active);
      if n in values {
        assert scope.Right(exact, n, values[n]);
        return values[n];
      }
      if n !in scope.deps {
        return scope.outer(n);
      }
      v := ResolveNew(n, depth);
    }

    /** Evaluate a name for the first and only time. */
    method ResolveNew(n: string, depth: nat) returns (v: VariableValue)
      requires Ready() && n in scope.deps && n !in values && scope.Next(active, n) && depth == |active| < MAX_DEPTH
      modifies this
      ensures Ready() && active == old(active) && old(values).Keys <= values.Keys
      ensures n in values && v == values[n] && scope.Right(exact, n, v)
      decreases scope.Room(active), 1
    {
      scope.EnterSteady(exact, values, active, n);
      active := active + [n];
      v := Evaluate(n, depth);
      scope.LeaveSteady(exact, values, active, old(active), n, v);
      values := values[n := v];
      active := old(active);
    }

    /** The value that the definition of `n` gives it. */
    method Evaluate(n: string, depth: nat) returns (v: VariableValue)
      requires Ready() && active != [] && active[|active| - 1] == n && depth + 1 == |active| <= MAX_DEPTH
      requires scope.Evaluated(n) && scope.deps[n] == Refs(scope.defs[n].tokens, scope.decode)
      modifies this
      ensures Ready() && active == old(active) && old(values).Keys <= values.Keys && scope.Right(exact, n, v)
      decreases scope.Room(active), 5
    {
      match scope.defs[n].keyword {
        case Inherit =>
          v := scope.outer(n);
        case Initial =>
          v := INVALID;
        case Revert =>
          v := UNSUPPORTED;
        case NoKeyword =>
          v := Substitute(n, depth);
      }
      scope.SteadyFacts(exact, values, active);
      scope.EvaluatedRight(exact, n, v);
    }

    /** The substitution of the whole value of `n`. */
    method Substitute(n: string, depth: nat) returns (v: VariableValue)
      requires Ready() && active != [] && active[|active| - 1] == n && depth + 1 == |active|
      requires scope.Evaluated(n) && scope.deps[n] == Refs(scope.defs[n].tokens, scope.decode)
      modifies this
      ensures Ready() && active == old(active) && old(values).Keys <= values.Keys
      ensures scope.Expanded(exact, scope.defs[n].tokens, 0, |scope.defs[n].tokens|, v, scope.Safe(n))
      decreases scope.Room(active), 4, |scope.defs[n].tokens|, 4
    {
      var ts := scope.defs[n].tokens;
      var blocks := IndexValueBlocks(ts, scope.decode);
      ghost var safe := scope.Safe(n);
      if safe {
        SafeToExpand(n);
      }
      v := Expand(ts, blocks, 0, |ts|, depth, depth + 1, safe);
    }

    lemma {:induction false} SafeToExpand(n: string)
      requires Ready() && active != [] && active[|active| - 1] == n && scope.Evaluated(n) && scope.Safe(n)
      requires scope.deps[n] == Refs(scope.defs[n].tokens, scope.decode)
      ensures scope.AllSafe(scope.defs[n].tokens, |active|)
      ensures |active| - 1 + Levels(scope.defs[n].tokens, 0, |scope.defs[n].tokens|) < MAX_DEPTH
    {
      scope.SafeInside(exact, values, active, n);
      forall r | r in scope.deps[n]
        ensures scope.Safe(r)
      {
        scope.SafeRefs(n, r);
      }
    }

    /** The substitution of a range of tokens, each reference resolved as it is met. */
    method Expand(ts: seq<Token>, blocks: seq<ValueBlock>, start: nat, limit: nat, depth: nat, asked: nat,
                  ghost safe: bool) returns (v: VariableValue)
      requires Ready() && AskedBy(ts) && Indexed(ts, scope.decode, blocks) && limit <= |ts|
      requires asked == |active| && (safe ==> scope.AllSafe(ts, asked) && depth + Levels(ts, start, limit) < MAX_DEPTH)
      modifies this
      ensures Ready() && active == old(active) && old(values).Keys <= values.Keys
      ensures scope.Expanded(exact, ts, start, limit, v, safe)
      decreases scope.Room(active), 4, if start < |ts| then |ts| - start else 0, 3
    {
      if depth >= MAX_DEPTH {
        scope.GivenUp(exact, ts, start, limit);
        return UNSUPPORTED;
      }
      var out := "";
      var i := start;
      scope.ExpandStarts(exact, ts, start, limit);
      while i < limit
        invariant start <= i && Ready() && active == old(active) && old(values).Keys <= values.Keys
        invariant scope.Copied(exact, ts, start, limit, out, i)
        decreases limit - i
      {
        if !IsReference(ts[i]) {
          scope.CopiedMore(exact, ts, start, limit, out, i);
          out := out + ts[i].raw;
          i := i + 1;
          continue;
        }
        scope.LevelsInside(exact, ts, start, limit, out, i);
        var w := Replace(ts, blocks, i, depth, asked, safe);
        scope.CopiedReplaced(exact, ts, start, limit, out, i, w, safe);
        if w.status != ValueResolved {
          return w;
        }
        out := out + (" " + w.text + " ");
        i := EndOf(ts, blocks, i) + 1;
      }
      scope.ExpandEnds(exact, ts, start, limit, out, i, safe);
      return Text(scope.trim(out));
    }

    function EndOf(ts: seq<Token>, blocks: seq<ValueBlock>, i: nat): (end: nat)
      requires Indexed(ts, scope.decode, blocks) && i < |ts| && IsReference(ts[i])
      ensures i <= end == ClosingOf(ts, i)
    {
      assert Scanned(ts, i, blocks[i]);
      blocks[i].end
    }

    /** What a reference is replaced by, before it is set off by spaces. */
    method Replace(ts: seq<Token>, blocks: seq<ValueBlock>, i: nat, depth: nat, asked: nat, ghost safe: bool)
      returns (v: VariableValue)
      requires Ready() && AskedBy(ts) && Indexed(ts, scope.decode, blocks) && i < |ts| && IsReference(ts[i])
      requires asked == |active| && (safe ==> scope.AllSafe(ts, asked) && depth + LevelsAt(ts, i) < MAX_DEPTH)
      modifies this
      ensures Ready() && active == old(active) && old(values).Keys <= values.Keys
      ensures scope.Replaced(exact, ts, i, v, safe)
      decreases scope.Room(active), 4, |ts| - i, 2
    {
      BlockAt(ts, scope.decode, blocks, i);
      var end, comma, name := blocks[i].end, blocks[i].comma, blocks[i].name;
      if !IsVariableName(name) {
        scope.ReplacedUnnamed(exact, ts, i, safe);
        return INVALID;
      }
      v := ReplaceNamed(ts, blocks, i, name, comma, end, depth, asked, safe);
    }

    method ReplaceNamed(ts: seq<Token>, blocks: seq<ValueBlock>, ghost i: nat, name: string, comma: int, end: nat,
                        depth: nat, asked: nat, ghost safe: bool) returns (v: VariableValue)
      requires Ready() && AskedBy(ts) && Indexed(ts, scope.decode, blocks) && i < |ts| && IsReference(ts[i])
      requires name == ReferenceName(ts, scope.decode, i) && IsVariableName(name)
      requires comma == CommaOf(ts, i) && end == ClosingOf(ts, i)
      requires asked == |active| && (safe ==> scope.AllSafe(ts, asked) && depth + LevelsAt(ts, i) < MAX_DEPTH)
      modifies this
      ensures Ready() && active == old(active) && old(values).Keys <= values.Keys
      ensures scope.Replaced(exact, ts, i, v, safe)
      decreases scope.Room(active), 4, |ts| - i, 1
    {
      NameIsRef(ts, scope.decode, i);
      v := ResolveName(name, asked);
      if v.status == ValueInvalid && comma >= 0 {
        v := Fallback(ts, blocks, i, comma + 1, end, depth, asked, safe);
      } else {
        scope.ReplacedByValue(exact, ts, i, v, safe);
      }
    }

    /** The fallback of a reference to an invalid name. */
    method Fallback(ts: seq<Token>, blocks: seq<ValueBlock>, ghost i: nat, after: nat, end: nat, depth: nat, asked: nat,
                    ghost safe: bool) returns (v: VariableValue)
      requires Ready() && AskedBy(ts) && Indexed(ts, scope.decode, blocks) && i < |ts| && IsReference(ts[i])
      requires IsVariableName(ReferenceName(ts, scope.decode, i))
      requires scope.Lookup(exact, ReferenceName(ts, scope.decode, i)).status == ValueInvalid
      requires after == CommaOf(ts, i) + 1 && end == ClosingOf(ts, i) && CommaOf(ts, i) >= 0
      requires asked == |active| && (safe ==> scope.AllSafe(ts, asked) && depth + LevelsAt(ts, i) < MAX_DEPTH)
      modifies this
      ensures Ready() && active == old(active) && old(values).Keys <= values.Keys
      ensures scope.Replaced(exact, ts, i, v, safe)
      decreases scope.Room(active), 4, |ts| - i, 0
    {
      FallbackLevels(ts, i, after, end);
      v := Expand(ts, blocks, after, end, depth + 1, asked, safe);
      scope.ReplacedByFallback(exact, ts, i, after, end, v, safe);
    }

    /** Every definition gets its value, or is given up on where it is not safe. */
    method ResolveAll(ordered: seq<string>)
      requires Ready() && active == [] && forall n :: n in scope.deps ==> n in ordered
      modifies this
      ensures values.Keys == scope.deps.Keys + scope.fixed.Keys
      ensures forall n {:trigger scope.Right(exact, n, values[n])} :: n in values ==> scope.Right(exact, n, values[n])
    {
      for i := 0 to |ordered|
        invariant Ready() && active == []
        invariant forall j :: 0 <= j < i && ordered[j] in scope.deps ==> ordered[j] in values
      {
        var _ := ResolveName(ordered[i], 0);
      }
      scope.SteadyFacts(exact, values, active);
    }
  }

  /** The graph of the definitions, from their tokens. */
  method CollectGraph(defs: Definitions, ordered: seq<string>, decode: string -> string)
    returns (deps: Dependencies, fixed: Values)
    requires forall n :: n in defs <==> n in ordered
    ensures deps == Graph(defs, decode) && fixed == Unreadable(defs)
  {
    deps, fixed := map[], map[];
    for i := 0 to |ordered|
      invariant forall n :: n in deps <==> n in defs && defs[n].Usable? && n in ordered[..i]
      invariant forall n :: n in deps ==> deps[n] == Refs(defs[n].tokens, decode)
      invariant forall n :: n in fixed <==> n in defs && defs[n].Unusable? && n in ordered[..i]
      invariant forall n :: n in fixed ==> fixed[n] == UNSUPPORTED
    {
      var name := ordered[i];
      assert ordered[..i + 1] == ordered[..i] + [name] && name in ordered;
      if defs[name].Unusable? {
        fixed := fixed[name := UNSUPPORTED];
      } else {
        var refs := VariableRefs(defs[name].tokens, decode);
        deps := deps[name := refs];
      }
    }
    assert ordered[..|ordered|] == ordered;
  }

  /* Definitions without references. */

  predicate Literal(d: Definition) {
    d.Usable? && forall i :: 0 <= i < |d.tokens| ==> !IsReference(d.tokens[i])
  }

  /** The text of the tokens from `i` on. */
  function Raw(ts: seq<Token>, i: nat): string
    decreases if i < |ts| then |ts| - i else 0
  {
    if i >= |ts| then "" else ts[i].raw + Raw(ts, i + 1)
  }

  lemma {:induction false} LiteralFlat(d: Definition, env: Env, i: nat)
    requires Literal(d)
    ensures Flat(d.tokens, env, i, |d.tokens|) == Text(Raw(d.tokens, i))
    decreases if i < |d.tokens| then |d.tokens| - i else 0
  {
    if i < |d.tokens| {
      LiteralFlat(d, env, i + 1);
    }
  }

  lemma {:induction false} LiteralRefs(d: Definition, decode: string -> string, n: nat)
    requires Literal(d) && n <= |d.tokens|
    ensures RefsBefore(d.tokens, decode, n) == []
  {
    if n > 0 {
      LiteralRefs(d, decode, n - 1);
    }
  }

  ghost predicate AllLiteral(defs: Definitions) {
    forall n :: n in defs ==> Literal(defs[n])
  }

  /** Literal definitions form no cycle, so the search would mark none of them. */
  lemma {:induction false} LiteralAcyclic(defs: Definitions, decode: string -> string, names: seq<string>)
    requires AllLiteral(defs)
    ensures !Cycle(Graph(defs, decode), names)
  {
    var deps := Graph(defs, decode);
    if Cycle(deps, names) {
      assert Edge(deps, names[0], names[1]);
      LiteralRefs(defs[names[0]], decode, |defs[names[0]].tokens|);
    }
  }

  /** The value of a literal definition, from its text alone. */
  function LiteralValue(d: Definition, inherited: VariableValue, trim: string -> string): VariableValue
    requires Literal(d)
  {
    match d.keyword
    case Inherit => inherited
    case Initial => INVALID
    case Revert => UNSUPPORTED
    case NoKeyword => Text(trim(Raw(d.tokens, 0)))
  }

  lemma {:induction false} LiteralValid(scope: Scope)
    requires AllLiteral(scope.defs) && scope.deps == Graph(scope.defs, scope.decode)
    requires scope.fixed == Unreadable(scope.defs) && scope.cyclic == {}
    ensures scope.Valid() && scope.fixed == map[] && scope.deps.Keys == scope.defs.Keys && scope.Initially() == map[]
  {
    forall names
      ensures !Cycle(scope.deps, names)
    {
      LiteralAcyclic(scope.defs, scope.decode, names);
    }
  }

  lemma {:induction false} LiteralSolved(scope: Scope, env: Env, n: string)
    requires n in scope.defs && Literal(scope.defs[n]) && env.trim == scope.trim
    ensures scope.ValueIn(env, n) == LiteralValue(scope.defs[n], scope.outer(n), scope.trim)
  {
    LiteralFlat(scope.defs[n], env, 0);
  }

  lemma {:induction false} LiteralSolves(scope: Scope, values: Values)
    requires AllLiteral(scope.defs) && scope.deps == Graph(scope.defs, scope.decode)
    requires scope.fixed == Unreadable(scope.defs) && scope.cyclic == {} && values.Keys == scope.defs.Keys
    requires forall n :: n in values ==> values[n] == LiteralValue(scope.defs[n], scope.outer(n), scope.trim)
    ensures scope.Valid() && values == scope.Solution()
  {
    LiteralValid(scope);
    forall n | scope.Evaluated(n)
      ensures n in values && values[n] == scope.ValueIn(scope.EnvOf(values), n)
    {
      LiteralSolved(scope, scope.EnvOf(values), n);
    }
    assert scope.Solves(values);
    scope.UniqueSolution(values);
  }

  /** Definitions without references need no graph: their texts are the solution
      that the graph would give. */
  method BuildLiteralVariables(defs: Definitions, ordered: seq<string>, outer: string -> VariableValue,
                               decode: string -> string, trim: string -> string)
    returns (values: Values, ok: bool)
    requires forall n :: n in defs <==> n in ordered
    ensures ok <==> AllLiteral(defs)
    ensures ok ==>
              var scope := ScopeOf(defs, {}, outer, decode, trim);
              scope.Valid() && values == scope.Solution() && values.Keys == defs.Keys
  {
    values, ok := map[], true;
    for i := 0 to |ordered|
      invariant forall j :: 0 <= j < i ==> Literal(defs[ordered[j]])
      invariant forall n :: n in values <==> n in ordered[..i]
      invariant forall n :: n in values ==> values[n] == LiteralValue(defs[n], outer(n), trim)
    {
      var name := ordered[i];
      assert ordered[..i + 1] == ordered[..i] + [name] && name in ordered;
      if !Literal(defs[name]) {
        return map[], false;
      }
      values := values[name := LiteralValue(defs[name], outer(name), trim)];
    }
    assert ordered[..|ordered|] == ordered;
    ghost var scope := ScopeOf(defs, {}, outer, decode, trim);
    LiteralSolves(scope, values);
  }

  /** The values are those of the solution, except that names which are not safe
      may have been given up on. */
  ghost predicate Built(scope: Scope, exact: Values, values: Values) {
    && scope.Valid() && scope.Solves(exact) && values.Keys == scope.defs.Keys
    && forall n {:trigger scope.Right(exact, n, values[n])} :: n in values ==> scope.Right(exact, n, values[n])
  }

  /** The scope that marking these names leaves. */
  function ScopeOf(defs: Definitions, cyclic: set<string>, outer: string -> VariableValue,
                   decode: string -> string, trim: string -> string): Scope {
    Scope(defs, Graph(defs, decode), cyclic, Unreadable(defs), outer, decode, trim)
  }

  /** Definitions with references: their graph, its cycles, and then the values. */
  method BuildGraphVariables(defs: Definitions, ordered: seq<string>, outer: string -> VariableValue,
                             decode: string -> string, trim: string -> string)
    returns (values: Values, cyclic: set<string>, ok: bool)
    requires forall n :: n in defs <==> n in ordered
    ensures forall n :: n in cyclic ==> OnCycle(Graph(defs, decode), n)
    ensures ok ==>
              var scope := ScopeOf(defs, cyclic, outer, decode, trim);
              Built(scope, scope.Solution(), values)
    ensures !ok ==> TooDeep(Graph(defs, decode))
  {
    values := map[];
    var deps, fixed := CollectGraph(defs, ordered, decode);
    var finder := new CycleFinder(deps);
    finder.MarkCycles(ordered);
    cyclic := finder.cyclic;
    ok := !finder.depthExceeded;
    if !ok {
      return;
    }
    forall n | n in cyclic
      ensures n in deps
    {
      MarkedIsDefined(deps, n);
    }
    var scope := Scope(defs, deps, cyclic, fixed, outer, decode, trim);
    var resolver := new Resolver(scope);
    resolver.ResolveAll(ordered);
    values := resolver.values;
    assert values.Keys == deps.Keys + fixed.Keys == defs.Keys;
    scope.SolutionSolves();
  }

  lemma {:induction false} LiteralBuilt(scope: Scope, values: Values)
    requires scope.Valid() && values == scope.Solution() && values.Keys == scope.defs.Keys
    ensures Built(scope, scope.Solution(), values)
  {
    scope.SolutionSolves();
  }

  /** From token lists to values: marked names lie on cycles and every cycle has
      one, marked names are invalid, and every other definition has the value its
      own substitution gives it. A value is given up on only where something it can
      depend on can be asked for beyond the limit, and everything only where
      references between that many definitions are chained. */
  method BuildVariables(defs: Definitions, ordered: seq<string>, outer: string -> VariableValue,
                        decode: string -> string, trim: string -> string)
    returns (values: Values, cyclic: set<string>, ok: bool)
    requires forall n :: n in defs <==> n in ordered
    ensures forall n :: n in cyclic ==> OnCycle(Graph(defs, decode), n)
    ensures ok ==>
              var scope := ScopeOf(defs, cyclic, outer, decode, trim);
              Built(scope, scope.Solution(), values)
    ensures !ok ==> TooDeep(Graph(defs, decode))
    ensures AllLiteral(defs) ==> ok && cyclic == {}
    ensures |defs| < MAX_DEPTH ==> ok
  {
    cyclic := {};
    values, ok := BuildLiteralVariables(defs, ordered, outer, decode, trim);
    if ok {
      LiteralBuilt(ScopeOf(defs, {}, outer, decode, trim), values);
    } else {
      values, cyclic, ok := BuildGraphVariables(defs, ordered, outer, decode, trim);
    }
    if |defs| < MAX_DEPTH {
      FewAreNotDeep(defs, decode);
    }
  }

  lemma {:induction false} FewIsSolved(scope: Scope, values: Values, exact: Values, n: string, reach: nat)
    requires Built(scope, exact, values) && n in values && |scope.deps| + reach <= MAX_DEPTH
    requires forall m {:trigger scope.Reach(m)} :: scope.Evaluated(m) ==> scope.Reach(m) <= reach
    ensures n in exact && values[n] == exact[n]
  {
    assert scope.Right(exact, n, values[n]);
    scope.FewAreSafe(n, reach);
    assert n in scope.deps.Keys + scope.fixed.Keys;
  }

  /** Few usable definitions with few nested fallbacks get exactly their solution. */
  lemma {:induction false} FewAreSolved(scope: Scope, values: Values, exact: Values, reach: nat)
    requires Built(scope, exact, values) && |scope.deps| + reach <= MAX_DEPTH
    requires forall m {:trigger scope.Reach(m)} :: scope.Evaluated(m) ==> scope.Reach(m) <= reach
    ensures values == exact
  {
    forall n | n in values
      ensures n in exact && values[n] == exact[n]
    {
      FewIsSolved(scope, values, exact, n, reach);
    }
    assert values == exact by {
      SameKeys(scope, values, exact);
    }
  }

  lemma {:induction false} SameKeys(scope: Scope, values: Values, exact: Values)
    requires Built(scope, exact, values)
    ensures values.Keys == exact.Keys
  {
  }

  /** Fewer definitions than the limit are never given up on. */
  lemma {:induction false} FewAreNotDeep(defs: Definitions, decode: string -> string)
    requires |defs| < MAX_DEPTH
    ensures !TooDeep(Graph(defs, decode))
  {
    var deps := Graph(defs, decode);
    CountWithin(deps.Keys, defs.Keys);
    forall names
      ensures !Deep(deps, names)
    {
      if Deep(deps, names) {
        DeepNeedsMany(deps, names);
      }
    }
  }

  lemma {:induction false} MarkedIsDefined(deps: Dependencies, n: string)
    requires OnCycle(deps, n)
    ensures n in deps
  {
    var names :| Cycle(deps, names) && n in names;
    CycleNames(deps, names);
  }
}
