/** Descendant/child chains matched by a memoised bit-vector dynamic program. */
module AncestorChains {
  import opened Documents
  import opened Selectors

  const MASK_BITS := 64

  /** A 64-bit mask as the set of its one bits; shifting past the top loses the bit. */
  function Bit(k: nat): (b: set<nat>) {
    if k < MASK_BITS then {k} else {}
  }

  datatype ChainState = ChainState(matched: set<nat>, seen: set<nat>)

  const EMPTY := ChainState({}, {})

  /** The chain prepared for a selector, or nothing when the plain matcher is used. */
  function CompileAncestorChain(complexity: Selector, attributeSensitive: bool): (chain: seq<Compound>)
    ensures chain != [] ==> chain == complexity.compounds && complexity.AncestorOnly()
    ensures chain != [] ==> attributeSensitive || Descendants(complexity.combinators) >= 2
  {
    if complexity.combinators == [] then []
    else if exists c :: c in complexity.combinators && c != Descendant && c != Child then []
    else if Descendants(complexity.combinators) < 2 && !attributeSensitive then []
    else complexity.compounds
  }

  function Descendants(combinators: seq<Combinator>): nat {
    if combinators == [] then 0
    else (if combinators[0] == Descendant then 1 else 0) + Descendants(combinators[1..])
  }

  datatype Plan = Plan(chain: seq<Compound>, complexity: Selector) {
    /** What planning guarantees of every plan that carries a chain. */
    ghost predicate Planned() {
      && 0 < |chain| <= MASK_BITS
      && chain == complexity.compounds
      && complexity.AncestorOnly()
    }
  }

  /** The meaning of the two masks at element `n`. */
  ghost predicate Exact(t: Tree, s: Selector, n: int, st: ChainState)
    requires WellFormed(t) && s.Shaped()
  {
    && IsElement(t, n)
    && (forall k :: k in st.matched <==> 0 <= k < |s.compounds| && ChainMatches(t, s, k, n))
    && (forall k :: k in st.seen <==> 0 <= k < |s.compounds| && SeenAt(t, s, k, n))
  }

  /** Compound `k` ends a match at some ancestor of `n`. */
  ghost predicate MatchedAbove(t: Tree, s: Selector, k: nat, n: int)
    requires WellFormed(t) && s.Shaped() && k < |s.compounds| && 0 <= n < |t|
  {
    exists a :: Above(t, a, n) && ChainMatches(t, s, k, a)
  }

  /** Compound `k` ends a match at `n` or at some ancestor of `n`. */
  ghost predicate SeenAt(t: Tree, s: Selector, k: nat, n: int)
    requires WellFormed(t) && s.Shaped() && k < |s.compounds| && 0 <= n < |t|
  {
    ChainMatches(t, s, k, n) || MatchedAbove(t, s, k, n)
  }

  /** The state carried into `n`: its element parent's, or nothing at the top. */
  ghost predicate ExactAbove(t: Tree, s: Selector, n: int, st: ChainState)
    requires WellFormed(t) && s.Shaped() && -1 <= n < |t|
  {
    if n < 0 then st == EMPTY else Exact(t, s, n, st)
  }

  /** The eligibility test on the parent's masks is the combinator's meaning. */
  predicate Eligible(s: Selector, parent: ChainState, k: nat)
    requires k < |s.combinators|
  {
    || (s.combinators[k] == Descendant && parent.seen * Bit(k) != {})
    || (s.combinators[k] == Child && parent.matched * Bit(k) != {})
  }

  lemma {:induction false} EligibleIsCombinator(t: Tree, s: Selector, n: int, parent: ChainState, k: nat)
    requires WellFormed(t) && s.Shaped() && s.AncestorOnly() && |s.compounds| <= MASK_BITS
    requires IsElement(t, n) && ExactAbove(t, s, ElementParent(t, n), parent)
    requires k < |s.combinators|
    ensures ChainMatches(t, s, k + 1, n) <==>
            Eligible(s, parent, k) && CompoundMatches(t, s.compounds[k + 1], n)
  {
    var p := ElementParent(t, n);
    assert s.combinators[k] in s.combinators;
    assert parent.seen * Bit(k) != {} <==> k in parent.seen by { InMask(parent.seen, k); }
    assert parent.matched * Bit(k) != {} <==> k in parent.matched by { InMask(parent.matched, k); }
    if s.combinators[k] == Descendant {
      DescendantMatch(t, s, n, k);
      if p >= 0 {
        assert k in parent.seen <==> SeenAt(t, s, k, p);
      }
    }
  }

  lemma {:induction false} InMask(mask: set<nat>, k: nat)
    requires k < MASK_BITS
    ensures mask * Bit(k) != {} <==> k in mask
  {
    if k in mask {
      assert k in mask * Bit(k);
    }
  }

  lemma {:induction false} DescendantMatch(t: Tree, s: Selector, n: int, k: nat)
    requires WellFormed(t) && s.Shaped() && IsElement(t, n)
    requires k < |s.combinators| && s.combinators[k] == Descendant
    ensures ChainMatches(t, s, k + 1, n) <==>
            CompoundMatches(t, s.compounds[k + 1], n) &&
            ElementParent(t, n) >= 0 && SeenAt(t, s, k, ElementParent(t, n))
  {
    var p := ElementParent(t, n);
    if p >= 0 && ChainMatches(t, s, k, p) {
      assert Above(t, p, n);
    }
    if a :| p >= 0 && Above(t, a, p) && ChainMatches(t, s, k, a) {
      assert Above(t, a, n);
    }
  }

  /** Adding a node's own matches to the inherited mask gives its `seen` mask. */
  lemma {:induction false} SeenGrows(t: Tree, s: Selector, n: int, parent: ChainState, matched: set<nat>)
    requires WellFormed(t) && s.Shaped() && IsElement(t, n)
    requires ExactAbove(t, s, ElementParent(t, n), parent)
    requires forall k :: k in matched <==> 0 <= k < |s.compounds| && ChainMatches(t, s, k, n)
    ensures Exact(t, s, n, ChainState(matched, parent.seen + matched))
  {
    var p := ElementParent(t, n);
    forall k: nat | k < |s.compounds|
      ensures k in parent.seen + matched <==> SeenAt(t, s, k, n)
    {
      if p >= 0 {
        assert k in parent.seen <==> SeenAt(t, s, k, p);
        SeenAbove(t, s, k, n);
      }
    }
  }

  lemma {:induction false} SeenAbove(t: Tree, s: Selector, k: nat, n: int)
    requires WellFormed(t) && s.Shaped() && k < |s.compounds| && 0 <= n < |t|
    requires ElementParent(t, n) >= 0
    ensures SeenAt(t, s, k, ElementParent(t, n)) <==> MatchedAbove(t, s, k, n)
  {
    var p := ElementParent(t, n);
    if ChainMatches(t, s, k, p) {
      assert Above(t, p, n);
    }
    if a :| Above(t, a, p) && ChainMatches(t, s, k, a) {
      assert Above(t, a, n);
    }
    if a :| Above(t, a, n) && ChainMatches(t, s, k, a) {
      assert a == p || Above(t, a, p);
    }
  }

  datatype Recent = Recent(node: int, state: ChainState)

  const NO_RECENT := Recent(-1, EMPTY)

  class ChainMatcher {
    const tree: Tree
    const plans: seq<Plan>
    /** Per plan, prefix states by node; empty until the first admission. */
    var tables: seq<map<int, ChainState>>
    /** Per plan, the most recent prefix state; empty until first admission. */
    var recent: seq<Recent>

    constructor (tree: Tree, plans: seq<Plan>)
      requires WellFormed(tree)
      requires forall p :: 0 <= p < |plans| ==> plans[p].Planned()
      ensures this.tree == tree && this.plans == plans && Valid()
    {
      this.tree, this.plans := tree, plans;
      tables, recent := [], [];
    }

    ghost predicate Valid()
      reads this
    {
      && WellFormed(tree)
      && (forall p :: 0 <= p < |plans| ==> plans[p].Planned())
      && |tables| <= |plans| && |recent| <= |plans|
      && (forall p :: 0 <= p < |tables| ==> TableExact(plans[p], tables[p]))
      && (forall p :: 0 <= p < |recent| ==> RecentExact(plans[p], recent[p]))
    }

    ghost predicate TableExact(plan: Plan, table: map<int, ChainState>)
      requires WellFormed(tree)
    {
      plan.complexity.Shaped() ==> forall n :: n in table ==> Exact(tree, plan.complexity, n, table[n])
    }

    ghost predicate RecentExact(plan: Plan, entry: Recent)
      requires WellFormed(tree)
    {
      plan.complexity.Shaped() ==> entry.node < 0 || Exact(tree, plan.complexity, entry.node, entry.state)
    }

    /** `nodes` are the elements from `Up(n)` upwards, stopping just below `top`. */
    ghost predicate Linked(n: int, nodes: seq<int>, top: int)
      requires WellFormed(tree) && -1 <= n < |tree|
    {
      && (forall j :: 0 <= j < |nodes| ==> IsElement(tree, nodes[j]))
      && (if nodes == [] then top == Up(tree, n)
          else && nodes[0] == Up(tree, n)
               && (forall j :: 0 <= j < |nodes| - 1 ==> nodes[j + 1] == ElementParent(tree, nodes[j]))
               && top == ElementParent(tree, nodes[|nodes| - 1]))
    }

    /** Does plan `p` match at the nearest element at or above `n`? Storage for
        the caches may be refused at any point. */
    method MatchAncestorChain(p: nat, n: int) returns (matched: bool, complete: bool)
      requires Valid() && p < |plans| && -1 <= n < |tree|
      modifies this
      ensures Valid()
      ensures complete <==> plans[p].complexity.Shaped()
      ensures complete ==>
                (matched <==> Up(tree, n) >= 0 && Matches(tree, plans[p].complexity, Up(tree, n)))
    {
      var plan := plans[p];
      var s := plan.complexity;
      if |plan.chain| != |s.compounds| || |plan.chain| != |s.combinators| + 1 {
        return false, false;
      }
      complete := true;
      var needsMap := Descendants(s.combinators) > 1;
      if !needsMap && |recent| < |plans| {
        var admitted: bool := *;
        if admitted {
          recent := seq(|plans|, _ => NO_RECENT);
        }
      }
      var nodes, parentState, top := Climb(p, needsMap, n);
      var i := |nodes|;
      while i > 0
        invariant 0 <= i <= |nodes| && Valid()
        invariant ExactAbove(tree, s, if i == |nodes| then top else nodes[i], parentState)
      {
        i := i - 1;
        assert ElementParent(tree, nodes[i]) == if i + 1 == |nodes| then top else nodes[i + 1];
        parentState := StepState(p, nodes[i], parentState);
        if HasElementChild(tree, nodes[i]) {
          Remember(p, needsMap, nodes[i], parentState);
        }
      }
      matched := parentState.matched * Bit(|plan.chain| - 1) != {};
      InMask(parentState.matched, |plan.chain| - 1);
    }

    /** Walk up to the nearest cached element, collecting the uncached ones. */
    method Climb(p: nat, needsMap: bool, n: int)
      returns (nodes: seq<int>, state: ChainState, ghost top: int)
      requires Valid() && p < |plans| && plans[p].complexity.Shaped() && -1 <= n < |tree|
      ensures -1 <= top < |tree| && Linked(n, nodes, top)
      ensures ExactAbove(tree, plans[p].complexity, top, state)
    {
      nodes, state, top := [], EMPTY, Up(tree, n);
      var current := n;
      while current >= 0
        invariant -1 <= current < |tree|
        invariant top == Up(tree, current) && Linked(n, nodes, top) && state == EMPTY
        decreases current
      {
        if tree[current].element {
          if needsMap {
            if p < |tables| && current in tables[p] {
              state := tables[p][current];
              return;
            }
          } else if p < |recent| && recent[p].node == current {
            state := recent[p].state;
            return;
          }
          nodes, top := nodes + [current], ElementParent(tree, current);
        }
        current := tree[current].parent;
      }
    }

    /** One element's masks from its parent's. */
    method StepState(p: nat, node: int, parent: ChainState) returns (state: ChainState)
      requires Valid() && p < |plans| && plans[p].complexity.Shaped() && IsElement(tree, node)
      requires ExactAbove(tree, plans[p].complexity, ElementParent(tree, node), parent)
      ensures Exact(tree, plans[p].complexity, node, state)
    {
      var plan := plans[p];
      var s := plan.complexity;
      var matched: set<nat> := {};
      if CompoundMatches(tree, plan.chain[0], node) {
        matched := Bit(0);
      }
      var c := 0;
      while c < |s.combinators|
        invariant 0 <= c <= |s.combinators|
        invariant forall k :: k in matched <==> 0 <= k <= c && ChainMatches(tree, s, k, node)
      {
        EligibleIsCombinator(tree, s, node, parent, c);
        if Eligible(s, parent, c) && CompoundMatches(tree, plan.chain[c + 1], node) {
          matched := matched + Bit(c + 1);
        }
        c := c + 1;
      }
      SeenGrows(tree, s, node, parent, matched);
      state := ChainState(matched, parent.seen + matched);
    }

    /** Keep an exact state for later calls if storage is admitted. */
    method Remember(p: nat, needsMap: bool, node: int, state: ChainState)
      requires Valid() && p < |plans| && plans[p].complexity.Shaped()
      requires Exact(tree, plans[p].complexity, node, state)
      modifies this
      ensures Valid()
    {
      if needsMap {
        if |tables| < |plans| {
          var grown: bool := *;
          if !grown {
            return;
          }
          tables := tables + seq(|plans| - |tables|, _ => map[]);
        }
        var admitted: bool := *;
        if admitted {
          tables := tables[p := tables[p][node := state]];
        }
      } else if p < |recent| {
        recent := recent[p := Recent(node, state)];
      }
    }
  }
}
