/** From parsed rules to the winners of every element: planning, dropping rules
    without declarations, indexing, and the walk over the document. */
module Inspection {
  import opened Documents
  import opened Selectors
  import opened SelectorKeys
  import opened ActiveAncestors
  import opened Cascade
  import CascadeOrder
  import opened Media
  import opened Stylesheets
  import opened SelectorIndex
  import opened SheetCaches
  import opened ViewingWalk

  datatype Planning = Certain(branch: Branch) | TooLong

  /** Plan one branch of a selector list. A chain with more compounds than the
      mask has bits is not matched exactly. */
  function PlanBranch(s: Selector, specificity: Specificity, sequence: nat, attributeSensitive: bool): (r: Planning)
    requires s.Shaped() && FoldedTags(s)
    ensures r.Certain? ==> BranchPlanned(r.branch) && r.branch.selector == s && r.branch.sequence == sequence
    ensures r.TooLong? ==> s.AncestorOnly() && |s.compounds| > AncestorChains.MASK_BITS
  {
    var chain := AncestorChains.CompileAncestorChain(s, attributeSensitive);
    if |chain| > AncestorChains.MASK_BITS then TooLong
    else Certain(Branch(s, specificity, PlanKey(s), sequence, chain))
  }

  /* Dropping rules without declarations. */

  lemma {:induction false} KeptOrigin(rules: seq<Rule>, i: nat) returns (a: nat)
    requires i < |Kept(rules)|
    ensures a < |rules| && Kept(rules)[i] == rules[a]
  {
    var rest := rules[..|rules| - 1];
    if i < |Kept(rest)| {
      a := KeptOrigin(rest, i);
    } else {
      a := |rules| - 1;
    }
  }

  /** Kept rules come from different rules, in order. */
  lemma {:induction false} KeptOrigins(rules: seq<Rule>, i: nat, j: nat) returns (a: nat, b: nat)
    requires i < j < |Kept(rules)|
    ensures a < b < |rules| && Kept(rules)[i] == rules[a] && Kept(rules)[j] == rules[b]
  {
    var rest := rules[..|rules| - 1];
    if j < |Kept(rest)| {
      a, b := KeptOrigins(rest, i, j);
    } else {
      a := KeptOrigin(rest, i);
      b := |rules| - 1;
    }
  }

  lemma {:induction false} KeptPlanned(rules: seq<Rule>)
    requires Planned(rules)
    ensures Planned(Kept(rules))
  {
    var kept := Kept(rules);
    forall i, j | 0 <= i < |kept| && 0 <= j < |kept[i].plans|
      ensures BranchPlanned(kept[i].plans[j])
    {
      var a := KeptOrigin(rules, i);
      assert BranchPlanned(rules[a].plans[j]);
    }
    forall r, s | Names(kept, r) && Names(kept, s) && r.sequence == s.sequence
      ensures r == s
    {
      KeptNamesDiffer(rules, r, s);
    }
  }

  lemma {:induction false} KeptNamesDiffer(rules: seq<Rule>, r: Ref, s: Ref)
    requires Planned(rules) && Names(Kept(rules), r) && Names(Kept(rules), s) && r.sequence == s.sequence
    ensures r == s
  {
    if r.rule == s.rule {
      var a := KeptOrigin(rules, r.rule);
      assert Names(rules, r.(rule := a)) && Names(rules, s.(rule := a));
    } else {
      var i, j := if r.rule < s.rule then r else s, if r.rule < s.rule then s else r;
      var a, b := KeptOrigins(rules, i.rule, j.rule);
      assert Names(rules, i.(rule := a)) && Names(rules, j.(rule := b));
    }
  }

  lemma {:induction false} KeptGrouped(rules: seq<Rule>, states: seq<MediaState>)
    requires Grouped(rules, states)
    ensures Grouped(Kept(rules), states)
  {
    forall i | 0 <= i < |Kept(rules)|
      ensures Kept(rules)[i].mediaGroup < |states|
    {
      var a := KeptOrigin(rules, i);
    }
  }

  lemma {:induction false} KeptApart(rules: seq<Rule>, legacy: seq<Declaration>, inline: seq<Declaration>, i: nat,
                                     a: nat, j: nat, b: nat)
    requires Numbered(rules, legacy, inline) && i < |Kept(rules)| && j < |Kept(rules)| && (i != j || a != b)
    requires a < |Kept(rules)[i].decls| && b < |Kept(rules)[j].decls|
    ensures !Clash(Kept(rules)[i].decls[a], Kept(rules)[j].decls[b])
  {
    var x, y;
    if i < j {
      x, y := KeptOrigins(rules, i, j);
    } else if j < i {
      y, x := KeptOrigins(rules, j, i);
    } else {
      x := KeptOrigin(rules, i);
      y := x;
    }
    assert Kept(rules)[i].decls[a] == rules[x].decls[a] && Kept(rules)[j].decls[b] == rules[y].decls[b];
  }

  lemma {:induction false} KeptNumbered(rules: seq<Rule>, legacy: seq<Declaration>, inline: seq<Declaration>)
    requires Numbered(rules, legacy, inline)
    ensures Numbered(Kept(rules), legacy, inline)
  {
    var kept := Kept(rules);
    forall i, a | 0 <= i < |kept| && 0 <= a < |kept[i].decls|
      ensures kept[i].decls[a].order > 0
    {
      var x := KeptOrigin(rules, i);
    }
    forall i, a, j, b | 0 <= i < |kept| && 0 <= a < |kept[i].decls| && 0 <= j < |kept| && 0 <= b < |kept[j].decls| &&
                        (i != j || a != b)
      ensures !Clash(kept[i].decls[a], kept[j].decls[b])
    {
      KeptApart(rules, legacy, inline, i, a, j, b);
    }
  }

  /* The offers of a rule depend on the rule alone. */

  /** What a branch of a rule offers, for some element. */
  type Offering = (Rule, Branch) -> seq<Offer>

  function RuleOffers(g: Offering, rule: Rule, k: nat): seq<Offer>
    requires k <= |rule.plans|
  {
    if k == 0 then [] else RuleOffers(g, rule, k - 1) + g(rule, rule.plans[k - 1])
  }

  function SheetOffers(g: Offering, rules: seq<Rule>): seq<Offer> {
    if rules == [] then []
    else
      var last := rules[|rules| - 1];
      SheetOffers(g, rules[..|rules| - 1]) + RuleOffers(g, last, |last.plans|)
  }

  /** The offers of a list of references, given those of each. */
  function Collected(f: Ref -> seq<Offer>, refs: seq<Ref>): seq<Offer> {
    if refs == [] then [] else Collected(f, refs[..|refs| - 1]) + f(refs[|refs| - 1])
  }

  lemma {:induction false} CollectedJoin(f: Ref -> seq<Offer>, xs: seq<Ref>, ys: seq<Ref>)
    ensures Collected(f, xs + ys) == Collected(f, xs) + Collected(f, ys)
  {
    if ys == [] {
      assert xs + ys == xs;
    } else {
      var zs, last := ys[..|ys| - 1], ys[|ys| - 1];
      assert (xs + ys)[..|xs + ys| - 1] == xs + zs && (xs + ys)[|xs + ys| - 1] == last;
      CollectedJoin(f, xs, zs);
    }
  }

  ghost predicate Linked(f: Ref -> seq<Offer>, g: Offering, rules: seq<Rule>) {
    forall r :: Names(rules, r) ==> f(r) == g(rules[r.rule], BranchOf(rules, r))
  }

  lemma {:induction false} RuleCollected(f: Ref -> seq<Offer>, g: Offering, rules: seq<Rule>, i: nat, k: nat)
    requires Linked(f, g, rules) && i < |rules| && k <= |rules[i].plans|
    ensures Collected(f, RuleRefs(rules, i, k)) == RuleOffers(g, rules[i], k)
  {
    if k > 0 {
      var refs, last := RuleRefs(rules, i, k), Ref(i, k - 1, rules[i].plans[k - 1].sequence);
      assert refs[..|refs| - 1] == RuleRefs(rules, i, k - 1) && refs[|refs| - 1] == last;
      RuleCollected(f, g, rules, i, k - 1);
      assert Names(rules, last);
    }
  }

  lemma {:induction false} SheetNext(g: Offering, rules: seq<Rule>, rule: Rule)
    ensures SheetOffers(g, rules + [rule]) == SheetOffers(g, rules) + RuleOffers(g, rule, |rule.plans|)
  {
    assert (rules + [rule])[..|rules|] == rules;
  }

  /** Trying every branch in source order offers what each rule offers in turn. */
  lemma {:induction false} SheetCollected(f: Ref -> seq<Offer>, g: Offering, rules: seq<Rule>, i: nat)
    requires Linked(f, g, rules) && i <= |rules|
    ensures Collected(f, AllRefs(rules, i)) == SheetOffers(g, rules[..i])
  {
    if i > 0 {
      assert rules[..i] == rules[..i - 1] + [rules[i - 1]];
      SheetNext(g, rules[..i - 1], rules[i - 1]);
      SheetCollected(f, g, rules, i - 1);
      RuleCollected(f, g, rules, i - 1, |rules[i - 1].plans|);
      CollectedJoin(f, AllRefs(rules, i - 1), RuleRefs(rules, i - 1, |rules[i - 1].plans|));
    }
  }

  ghost predicate Silent(g: Offering) {
    forall rule: Rule, b: Branch {:trigger g(rule, b)} :: rule.decls == [] ==> g(rule, b) == []
  }

  lemma {:induction false} SilentRule(g: Offering, rule: Rule, k: nat)
    requires Silent(g) && rule.decls == [] && k <= |rule.plans|
    ensures RuleOffers(g, rule, k) == []
  {
    if k > 0 {
      SilentRule(g, rule, k - 1);
    }
  }

  lemma {:induction false} KeptOffers(g: Offering, rules: seq<Rule>)
    requires Silent(g)
    ensures SheetOffers(g, Kept(rules)) == SheetOffers(g, rules)
  {
    if rules != [] {
      var rest, last := rules[..|rules| - 1], rules[|rules| - 1];
      KeptOffers(g, rest);
      if last.decls == [] {
        SilentRule(g, last, |last.plans|);
      } else {
        assert Kept(rules)[..|Kept(rest)|] == Kept(rest);
      }
    }
  }

  ghost function BranchOffers(t: Tree, states: seq<MediaState>, n: int, rule: Rule, b: Branch): seq<Offer>
    requires WellFormed(t)
  {
    if rule.mediaGroup < |states| && BranchPlanned(b) && states[rule.mediaGroup] != No && Matches(t, b.selector, n)
    then ListOffers(rule.decls, n, RuleSource(states[rule.mediaGroup], rule, b)) else []
  }

  /** `g` gives what branches offer at element `n`. */
  ghost predicate OffersAt(g: Offering, t: Tree, states: seq<MediaState>, n: int)
    requires WellFormed(t)
  {
    forall rule: Rule, b: Branch {:trigger g(rule, b)} :: g(rule, b) == BranchOffers(t, states, n, rule, b)
  }

  lemma {:induction false} RefIsBranch(t: Tree, rules: seq<Rule>, states: seq<MediaState>, n: int, r: Ref)
    requires WellFormed(t) && Planned(rules) && Grouped(rules, states) && Names(rules, r)
    ensures RefOffers(t, rules, states, n, r) == BranchOffers(t, states, n, rules[r.rule], BranchOf(rules, r))
  {
    assert BranchPlanned(rules[r.rule].plans[r.branch]);
  }

  lemma {:induction false} RefsAreCollected(f: Ref -> seq<Offer>, t: Tree, rules: seq<Rule>, states: seq<MediaState>,
                                            n: int, refs: seq<Ref>)
    requires WellFormed(t) && Planned(rules) && Grouped(rules, states)
    requires forall r :: r in refs ==> Names(rules, r) && f(r) == RefOffers(t, rules, states, n, r)
    ensures RefsOffers(t, rules, states, n, refs) == Collected(f, refs)
  {
    if refs != [] {
      assert refs[|refs| - 1] in refs;
      RefsAreCollected(f, t, rules, states, n, refs[..|refs| - 1]);
    }
  }

  lemma {:induction false} AllRefsOffer(g: Offering, t: Tree, rules: seq<Rule>, states: seq<MediaState>, n: int)
    requires WellFormed(t) && Planned(rules) && Grouped(rules, states) && OffersAt(g, t, states, n)
    ensures forall r :: r in AllRefs(rules, |rules|) ==> Names(rules, r)
    ensures RefsOffers(t, rules, states, n, AllRefs(rules, |rules|)) == SheetOffers(g, rules)
  {
    AllRefsNames(rules, |rules|);
    assert rules[..|rules|] == rules;
    var f := (r: Ref) => if Names(rules, r) then g(rules[r.rule], BranchOf(rules, r)) else [];
    forall r | r in AllRefs(rules, |rules|)
      ensures f(r) == RefOffers(t, rules, states, n, r)
    {
      RefIsBranch(t, rules, states, n, r);
    }
    RefsAreCollected(f, t, rules, states, n, AllRefs(rules, |rules|));
    SheetCollected(f, g, rules, |rules|);
  }

  /** Rules without declarations never change a winner. */
  lemma {:induction false} DroppedRulesAreSilent(t: Tree, rules: seq<Rule>, states: seq<MediaState>, n: int,
                                                 legacy: seq<Declaration>, inline: seq<Declaration>)
    requires WellFormed(t) && Planned(rules) && Grouped(rules, states)
    ensures Planned(Kept(rules)) && Grouped(Kept(rules), states)
    ensures TryEverything(t, Kept(rules), states, n, legacy, inline) ==
            TryEverything(t, rules, states, n, legacy, inline)
  {
    KeptPlanned(rules);
    KeptGrouped(rules, states);
    var g: Offering := (rule, b) => BranchOffers(t, states, n, rule, b);
    KeptOffers(g, rules);
    AllRefsOffer(g, t, rules, states, n);
    AllRefsOffer(g, t, Kept(rules), states, n);
  }

  /* The whole pass. */

  /** What a style pass is given: a parsed document, planned rules in source
      order, each node's presentational hints and inline declarations, and the
      state of every media group. */
  ghost predicate Prepared(t: Tree, rules: seq<Rule>, legacy: seq<seq<Declaration>>, inline: seq<seq<Declaration>>,
                           states: seq<MediaState>) {
    && Parsed(t) && t != [] && Planned(rules) && Grouped(rules, states)
    && |legacy| == |inline| == |t|
    && forall n :: 0 <= n < |t| ==> Numbered(rules, legacy[n], inline[n])
  }

  /** Every element outside inert content gets the winners of trying every
      branch of every rule in source order. */
  method InspectElements(t: Tree, rules: seq<Rule>, legacy: seq<seq<Declaration>>, inline: seq<seq<Declaration>>,
                         states: seq<MediaState>, cacheMatches: bool) returns (results: map<int, Winners>)
    requires Prepared(t, rules, legacy, inline, states)
    ensures forall n :: n in results <==> IsElement(t, n) && ScopeOf(t, n) != InertScope
    ensures forall n :: n in results ==>
                          0 <= n < |t| && results[n] == TryEverything(t, rules, states, n, legacy[n], inline[n])
    ensures forall n :: n in results ==>
                          CascadeOrder.RightlyWon(t, rules, states, n, legacy[n], inline[n], results[n])
  {
    KeptPlanned(rules);
    KeptGrouped(rules, states);
    var kept, index := BuildSelectorIndex(rules);
    forall n | 0 <= n < |t|
      ensures Numbered(kept, legacy[n], inline[n])
    {
      KeptNumbered(rules, legacy[n], inline[n]);
    }
    var sheet := new Sheet(t, kept, index, cacheMatches);
    var walker := new Walker(sheet, legacy, inline, states);
    results := walker.Run();
    forall n | n in results
      ensures results[n] == TryEverything(t, rules, states, n, legacy[n], inline[n])
    {
      assert walker.Ready(n);
      DroppedRulesAreSilent(t, rules, states, n, legacy[n], inline[n]);
    }
    forall n | n in results
      ensures CascadeOrder.RightlyWon(t, rules, states, n, legacy[n], inline[n], results[n])
    {
      CascadeOrder.WinnersAreRight(t, rules, states, n, legacy[n], inline[n]);
    }
  }
}
