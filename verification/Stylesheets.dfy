/** A planned stylesheet, the cascade obtained by trying every branch of every
    rule in source order, and its independence of scan order. */
module Stylesheets {
  import opened Documents
  import opened Selectors
  import opened SelectorKeys
  import opened ActiveAncestors
  import opened Cascade
  import opened Media
  import AncestorChains

  datatype Branch = Branch(selector: Selector, specificity: Specificity, key: Key, sequence: nat, chain: seq<Compound>)

  datatype Rule = Rule(plans: seq<Branch>, decls: seq<Declaration>, mediaGroup: nat, uncertainOrigin: bool)

  predicate BranchPlanned(b: Branch) {
    && b.selector.Shaped() && FoldedTags(b.selector)
    && b.key == PlanKey(b.selector)
    && (b.chain == [] ||
        (b.chain == b.selector.compounds && b.selector.AncestorOnly() && |b.chain| <= AncestorChains.MASK_BITS))
  }

  /** `r` names a branch of the sheet. */
  predicate Names(rules: seq<Rule>, r: Ref) {
    && r.rule < |rules| && r.branch < |rules[r.rule].plans|
    && r.sequence == rules[r.rule].plans[r.branch].sequence
  }

  function BranchOf(rules: seq<Rule>, r: Ref): Branch
    requires Names(rules, r)
  {
    rules[r.rule].plans[r.branch]
  }

  /** Planning numbers every kept branch once. */
  ghost predicate Planned(rules: seq<Rule>) {
    && (forall i, j :: 0 <= i < |rules| && 0 <= j < |rules[i].plans| ==> BranchPlanned(rules[i].plans[j]))
    && (forall r, s :: Names(rules, r) && Names(rules, s) && r.sequence == s.sequence ==> r == s)
  }

  /** The first `k` branches of rule `i`, and all branches of the first `i` rules. */
  function RuleRefs(rules: seq<Rule>, i: nat, k: nat): seq<Ref>
    requires i < |rules| && k <= |rules[i].plans|
  {
    if k == 0 then [] else RuleRefs(rules, i, k - 1) + [Ref(i, k - 1, rules[i].plans[k - 1].sequence)]
  }

  function AllRefs(rules: seq<Rule>, i: nat): seq<Ref>
    requires i <= |rules|
  {
    if i == 0 then [] else AllRefs(rules, i - 1) + RuleRefs(rules, i - 1, |rules[i - 1].plans|)
  }

  lemma {:induction false} RuleRefsNames(rules: seq<Rule>, i: nat, k: nat)
    requires i < |rules| && k <= |rules[i].plans|
    ensures forall r :: r in RuleRefs(rules, i, k) <==> Names(rules, r) && r.rule == i && r.branch < k
  {
    if k > 0 {
      RuleRefsNames(rules, i, k - 1);
      var last := Ref(i, k - 1, rules[i].plans[k - 1].sequence);
      assert forall r :: r in RuleRefs(rules, i, k) <==> r in RuleRefs(rules, i, k - 1) || r == last;
    }
  }

  /** Source order reaches every branch. */
  lemma {:induction false} AllRefsNames(rules: seq<Rule>, i: nat)
    requires i <= |rules|
    ensures forall r :: r in AllRefs(rules, i) <==> Names(rules, r) && r.rule < i
  {
    if i > 0 {
      AllRefsNames(rules, i - 1);
      RuleRefsNames(rules, i - 1, |rules[i - 1].plans|);
      assert forall r :: r in AllRefs(rules, i) <==>
                           r in AllRefs(rules, i - 1) || r in RuleRefs(rules, i - 1, |rules[i - 1].plans|);
    }
  }

  const LEGACY := Source(ZERO, false, false, false, true)
  const INLINE := Source(ZERO, true, false, false, true)

  /** How a matching rule enters the cascade under its media state. */
  function RuleSource(state: MediaState, rule: Rule, b: Branch): Source {
    if state == AlternateColourScheme then Source(b.specificity, false, false, true, false)
    else Source(b.specificity, false, rule.uncertainOrigin || state == Unknown, state == YesColourScheme, true)
  }

  predicate Grouped(rules: seq<Rule>, states: seq<MediaState>) {
    forall i :: 0 <= i < |rules| ==> rules[i].mediaGroup < |states|
  }

  /** What one branch contributes at element `n`. */
  ghost function RefOffers(t: Tree, rules: seq<Rule>, states: seq<MediaState>, n: int, r: Ref): seq<Offer>
    requires WellFormed(t) && Planned(rules) && Grouped(rules, states) && Names(rules, r)
  {
    var rule := rules[r.rule];
    var state := states[rule.mediaGroup];
    if state != No && Matches(t, BranchOf(rules, r).selector, n)
    then ListOffers(rule.decls, n, RuleSource(state, rule, BranchOf(rules, r)))
    else []
  }

  ghost function RefsOffers(t: Tree, rules: seq<Rule>, states: seq<MediaState>, n: int, refs: seq<Ref>): seq<Offer>
    requires WellFormed(t) && Planned(rules) && Grouped(rules, states)
    requires forall r :: r in refs ==> Names(rules, r)
  {
    if refs == [] then []
    else RefsOffers(t, rules, states, n, refs[..|refs| - 1]) + RefOffers(t, rules, states, n, refs[|refs| - 1])
  }

  ghost function ScanOffers(t: Tree, rules: seq<Rule>, states: seq<MediaState>, n: int, refs: seq<Ref>,
                            legacy: seq<Declaration>, inline: seq<Declaration>): seq<Offer>
    requires WellFormed(t) && Planned(rules) && Grouped(rules, states)
    requires forall r :: r in refs ==> Names(rules, r)
  {
    ListOffers(legacy, n, LEGACY) + RefsOffers(t, rules, states, n, refs) + ListOffers(inline, n, INLINE)
  }

  /** The reference cascade: every branch of every rule, in source order. */
  ghost function TryEverything(t: Tree, rules: seq<Rule>, states: seq<MediaState>, n: int,
                               legacy: seq<Declaration>, inline: seq<Declaration>): Winners
    requires WellFormed(t) && Planned(rules) && Grouped(rules, states)
  {
    AllRefsNames(rules, |rules|);
    TakeAll(NOTHING, ScanOffers(t, rules, states, n, AllRefs(rules, |rules|), legacy, inline))
  }

  /* Ties. */

  /** Two declarations could offer one slot at one rank. */
  predicate Clash(d: Declaration, e: Declaration) {
    d.order == e.order &&
    (d.custom != "" || e.custom != "" || d.prop == e.prop || d.prop == ALL_SHORTHAND || e.prop == ALL_SHORTHAND)
  }

  predicate ClashFree(ds: seq<Declaration>) {
    forall a, b :: 0 <= a < |ds| && 0 <= b < |ds| && Clash(ds[a], ds[b]) ==> a == b
  }

  /** Every parsed declaration takes a fresh order; a shorthand's parts share it
      but set different properties. Presentational hints have negative orders. */
  predicate Numbered(rules: seq<Rule>, legacy: seq<Declaration>, inline: seq<Declaration>) {
    && (forall i, a :: 0 <= i < |rules| && 0 <= a < |rules[i].decls| ==> rules[i].decls[a].order > 0)
    && (forall i, a, j, b ::
          (0 <= i < |rules| && 0 <= a < |rules[i].decls| && 0 <= j < |rules| && 0 <= b < |rules[j].decls| &&
           Clash(rules[i].decls[a], rules[j].decls[b])) ==> i == j && a == b)
    && (forall a :: 0 <= a < |legacy| ==> legacy[a].order < 0)
    && ClashFree(legacy) && ClashFree(inline)
  }

  /** A slot fixes the property, and the property the declarations that reach it. */
  predicate Fits(slot: Slot, d: Declaration, property: int) {
    match slot
    case Variable(name) => d.custom == name != "" && property == d.prop
    case AlternateVariable(name) => d.custom == name != "" && property == d.prop
    case _ =>
      && d.custom == "" && (d.prop == property || d.prop == ALL_SHORTHAND)
      && match slot
         case Property(p) => property == p
         case Alternate(p) => property == p
         case Layout(p) => property == p + PROPERTIES
         case OrdinaryMargin(m) => m >= 0 && MarginIndex(property) == m
         case AnimationSlot => property == ANIMATION
  }

  /** Every bid for a slot is some fitting declaration of the list, as `s` presents it. */
  ghost predicate BidsFit(offers: seq<Offer>, ds: seq<Declaration>, s: Source) {
    forall o :: o in offers && o.Bid? ==> BidFits(o, ds, s)
  }

  ghost predicate BidFits(o: Offer, ds: seq<Declaration>, s: Source)
    requires o.Bid?
  {
    exists a, p :: 0 <= a < |ds| && Fits(o.slot, ds[a], p) && o.c == CandidateOf(ds[a], p, s)
  }

  lemma {:induction false} PropertyOffersFit(d: Declaration, property: int, s: Source)
    requires d.custom == "" && (d.prop == property || d.prop == ALL_SHORTHAND)
    ensures BidsFit(PropertyOffers(d, property, s), [d], s)
  {
    forall o | o in PropertyOffers(d, property, s) && o.Bid?
      ensures exists a, p :: 0 <= a < 1 && Fits(o.slot, [d][a], p) && o.c == CandidateOf([d][a], p, s)
    {
      assert Fits(o.slot, [d][0], property) && o.c == CandidateOf([d][0], property, s);
    }
  }

  lemma {:induction false} BidsFitConcat(xs: seq<Offer>, ys: seq<Offer>, ds: seq<Declaration>, s: Source)
    requires BidsFit(xs, ds, s) && BidsFit(ys, ds, s)
    ensures BidsFit(xs + ys, ds, s)
  {
  }

  lemma {:induction false} BroadcastOffersFit(d: Declaration, k: nat, s: Source)
    requires d.custom == "" && d.prop == ALL_SHORTHAND
    ensures BidsFit(BroadcastOffers(d, k, s), [d], s)
  {
    if k > 0 {
      var xs, ys := BroadcastOffers(d, k - 1, s), PropertyOffers(d, k - 1, s);
      BroadcastOffersFit(d, k - 1, s);
      PropertyOffersFit(d, k - 1, s);
      assert BroadcastOffers(d, k, s) == xs + ys;
      BidsFitConcat(xs, ys, [d], s);
    }
  }

  lemma {:induction false} VariableOfferFits(d: Declaration, s: Source, slot: Slot)
    requires d.custom != "" && (slot == Variable(d.custom) || slot == AlternateVariable(d.custom))
    ensures BidsFit([Bid(slot, CandidateOf(d, d.prop, s))], [d], s)
  {
    assert Fits(slot, [d][0], d.prop);
  }

  lemma {:induction false} DeclarationOffersFit(d: Declaration, n: int, s: Source)
    ensures BidsFit(DeclarationOffers(d, n, s), [d], s)
  {
    if d.custom != "" {
      VariableOfferFits(d, s, Variable(d.custom));
      VariableOfferFits(d, s, AlternateVariable(d.custom));
    } else if d.prop == ALL_SHORTHAND {
      BroadcastOffersFit(d, PROPERTIES, s);
      BroadcastOffersFit(d, DECLARATION_PROPERTIES, s);
    } else {
      PropertyOffersFit(d, d.prop, s);
    }
    if s.schemeDependent {
      BidsFitConcat([Remark(SchemeDeclarations)], AlternateOffers(d, s), [d], s);
    }
    BidsFitConcat(SchemeOffers(d, s), RetainedOffers(d, s), [d], s);
  }

  lemma {:induction false} ListOffersFit(ds: seq<Declaration>, n: int, s: Source)
    ensures BidsFit(ListOffers(ds, n, s), ds, s)
  {
    if ds != [] {
      var rest, last := ds[..|ds| - 1], ds[|ds| - 1];
      ListOffersFit(rest, n, s);
      DeclarationOffersFit(last, n, s);
      Widen(ListOffers(rest, n, s), rest, ds, 0, s);
      Widen(DeclarationOffers(last, n, s), [last], ds, |ds| - 1, s);
      BidsFitConcat(ListOffers(rest, n, s), DeclarationOffers(last, n, s), ds, s);
    }
  }

  lemma {:induction false} Widen(offers: seq<Offer>, ds: seq<Declaration>, wide: seq<Declaration>, at: nat, s: Source)
    requires BidsFit(offers, ds, s) && at + |ds| <= |wide| && wide[at..at + |ds|] == ds
    ensures BidsFit(offers, wide, s)
  {
    forall o | o in offers && o.Bid?
      ensures exists a, p :: 0 <= a < |wide| && Fits(o.slot, wide[a], p) && o.c == CandidateOf(wide[a], p, s)
    {
      var a, p :| 0 <= a < |ds| && Fits(o.slot, ds[a], p) && o.c == CandidateOf(ds[a], p, s);
      assert wide[at..at + |ds|][a] == wide[at + a];
    }
  }

  /** Where a bid comes from: a hint, an inline declaration or a rule. */
  ghost predicate FromRule(o: Offer, rules: seq<Rule>, states: seq<MediaState>, r: Ref)
    requires o.Bid? && Grouped(rules, states)
  {
    && Names(rules, r)
    && BidFits(o, rules[r.rule].decls, RuleSource(states[rules[r.rule].mediaGroup], rules[r.rule], BranchOf(rules, r)))
  }

  lemma {:induction false} RefsOffersFrom(t: Tree, rules: seq<Rule>, states: seq<MediaState>, n: int, refs: seq<Ref>,
                                          o: Offer)
    requires WellFormed(t) && Planned(rules) && Grouped(rules, states)
    requires forall r :: r in refs ==> Names(rules, r)
    requires o in RefsOffers(t, rules, states, n, refs) && o.Bid?
    ensures exists r :: FromRule(o, rules, states, r)
  {
    var rest, r := refs[..|refs| - 1], refs[|refs| - 1];
    if o in RefsOffers(t, rules, states, n, rest) {
      RefsOffersFrom(t, rules, states, n, rest, o);
    } else {
      var s := RuleSource(states[rules[r.rule].mediaGroup], rules[r.rule], BranchOf(rules, r));
      ListOffersFit(rules[r.rule].decls, n, s);
      assert FromRule(o, rules, states, r);
    }
  }

  lemma {:induction false} RankEqual(x: Candidate, y: Candidate)
    requires x.Beats(y) && y.Beats(x)
    ensures x.d.important == y.d.important && x.inline == y.inline && x.spec == y.spec && x.d.order == y.d.order
  {
  }

  /** Equal rank and equal slot leave one declaration of a clash-free list. */
  lemma {:induction false} ListTie(x: Offer, y: Offer, ds: seq<Declaration>, s: Source)
    requires x.Bid? && y.Bid? && x.slot == y.slot && x.c.Beats(y.c) && y.c.Beats(x.c)
    requires BidFits(x, ds, s) && BidFits(y, ds, s) && ClashFree(ds)
    ensures x.c == y.c
  {
    var a, p :| 0 <= a < |ds| && Fits(x.slot, ds[a], p) && x.c == CandidateOf(ds[a], p, s);
    var b, q :| 0 <= b < |ds| && Fits(y.slot, ds[b], q) && y.c == CandidateOf(ds[b], q, s);
    RankEqual(x.c, y.c);
    SamePropertyOrCustom(x.slot, ds[a], p, ds[b], q);
    assert Clash(ds[a], ds[b]);
  }

  lemma {:induction false} SamePropertyOrCustom(slot: Slot, d: Declaration, p: int, e: Declaration, q: int)
    requires Fits(slot, d, p) && Fits(slot, e, q)
    ensures (d.custom == e.custom != "" && p == d.prop && q == e.prop) || (d.custom == e.custom == "" && p == q)
  {
  }

  lemma {:induction false} RuleTie(x: Offer, y: Offer, rules: seq<Rule>, states: seq<MediaState>,
                                   legacy: seq<Declaration>, inline: seq<Declaration>, r: Ref, u: Ref)
    requires Grouped(rules, states) && Numbered(rules, legacy, inline)
    requires x.Bid? && y.Bid? && x.slot == y.slot && x.c.Beats(y.c) && y.c.Beats(x.c)
    requires FromRule(x, rules, states, r) && FromRule(y, rules, states, u)
    ensures x.c == y.c
  {
    var ds, es := rules[r.rule].decls, rules[u.rule].decls;
    var s := RuleSource(states[rules[r.rule].mediaGroup], rules[r.rule], BranchOf(rules, r));
    var v := RuleSource(states[rules[u.rule].mediaGroup], rules[u.rule], BranchOf(rules, u));
    var a, p :| 0 <= a < |ds| && Fits(x.slot, ds[a], p) && x.c == CandidateOf(ds[a], p, s);
    var b, q :| 0 <= b < |es| && Fits(y.slot, es[b], q) && y.c == CandidateOf(es[b], q, v);
    RankEqual(x.c, y.c);
    SamePropertyOrCustom(x.slot, ds[a], p, es[b], q);
    assert Clash(rules[r.rule].decls[a], rules[u.rule].decls[b]);
  }

  lemma {:induction false} OfferOrigin(t: Tree, rules: seq<Rule>, states: seq<MediaState>, n: int, refs: seq<Ref>,
                    legacy: seq<Declaration>, inline: seq<Declaration>, o: Offer)
    requires WellFormed(t) && Planned(rules) && Grouped(rules, states)
    requires forall r :: r in refs ==> Names(rules, r)
    requires o in ScanOffers(t, rules, states, n, refs, legacy, inline) && o.Bid?
    ensures BidFits(o, legacy, LEGACY) || BidFits(o, inline, INLINE) || exists r :: FromRule(o, rules, states, r)
  {
    if o in ListOffers(legacy, n, LEGACY) {
      ListOffersFit(legacy, n, LEGACY);
    } else if o in ListOffers(inline, n, INLINE) {
      ListOffersFit(inline, n, INLINE);
    } else {
      RefsOffersFrom(t, rules, states, n, refs, o);
    }
  }

  /** No tie is left open by the numbering. */
  lemma {:induction false} NumberedTiesAgree(t: Tree, rules: seq<Rule>, states: seq<MediaState>, n: int, refs: seq<Ref>,
                          legacy: seq<Declaration>, inline: seq<Declaration>)
    requires WellFormed(t) && Planned(rules) && Grouped(rules, states) && Numbered(rules, legacy, inline)
    requires forall r :: r in refs ==> Names(rules, r)
    ensures TiesAgree(AsSet(ScanOffers(t, rules, states, n, refs, legacy, inline)))
  {
    var offers := ScanOffers(t, rules, states, n, refs, legacy, inline);
    forall x, y | x in offers && y in offers && x.Bid? && y.Bid? && x.slot == y.slot && x.c.Beats(y.c) && y.c.Beats(x.c)
      ensures x.c == y.c
    {
      OfferOrigin(t, rules, states, n, refs, legacy, inline, x);
      OfferOrigin(t, rules, states, n, refs, legacy, inline, y);
      Tie(x, y, rules, states, legacy, inline);
    }
  }

  lemma {:induction false} Tie(x: Offer, y: Offer, rules: seq<Rule>, states: seq<MediaState>,
                               legacy: seq<Declaration>, inline: seq<Declaration>)
    requires Grouped(rules, states) && Numbered(rules, legacy, inline)
    requires x.Bid? && y.Bid? && x.slot == y.slot && x.c.Beats(y.c) && y.c.Beats(x.c)
    requires BidFits(x, legacy, LEGACY) || BidFits(x, inline, INLINE) || exists r :: FromRule(x, rules, states, r)
    requires BidFits(y, legacy, LEGACY) || BidFits(y, inline, INLINE) || exists r :: FromRule(y, rules, states, r)
    ensures x.c == y.c
  {
    RankEqual(x.c, y.c);
    if BidFits(x, legacy, LEGACY) && BidFits(y, legacy, LEGACY) {
      ListTie(x, y, legacy, LEGACY);
    } else if BidFits(x, inline, INLINE) && BidFits(y, inline, INLINE) {
      ListTie(x, y, inline, INLINE);
    } else {
      LegacyOrder(x, legacy);
      LegacyOrder(y, legacy);
      RuleOrder(x, rules, states, legacy, inline);
      RuleOrder(y, rules, states, legacy, inline);
      var r :| FromRule(x, rules, states, r);
      var u :| FromRule(y, rules, states, u);
      RuleTie(x, y, rules, states, legacy, inline, r, u);
    }
  }

  lemma {:induction false} LegacyOrder(x: Offer, legacy: seq<Declaration>)
    requires x.Bid? && forall a :: 0 <= a < |legacy| ==> legacy[a].order < 0
    ensures BidFits(x, legacy, LEGACY) ==> x.c.d.order < 0 && !x.c.inline
  {
  }

  lemma {:induction false} RuleOrder(x: Offer, rules: seq<Rule>, states: seq<MediaState>, legacy: seq<Declaration>,
                                     inline: seq<Declaration>)
    requires x.Bid? && Grouped(rules, states) && Numbered(rules, legacy, inline)
    ensures (exists r :: FromRule(x, rules, states, r)) ==> x.c.d.order > 0 && !x.c.inline
  {
  }

  /* Scan order. */

  lemma {:induction false} RefOffered(t: Tree, rules: seq<Rule>, states: seq<MediaState>, n: int, refs: seq<Ref>,
                                      r: Ref, o: Offer)
    requires WellFormed(t) && Planned(rules) && Grouped(rules, states)
    requires forall r :: r in refs ==> Names(rules, r)
    requires r in refs && o in RefOffers(t, rules, states, n, r)
    ensures o in RefsOffers(t, rules, states, n, refs)
  {
    var rest, last := refs[..|refs| - 1], refs[|refs| - 1];
    if r in rest {
      RefOffered(t, rules, states, n, rest, r, o);
    }
  }

  lemma {:induction false} OfferingRef(t: Tree, rules: seq<Rule>, states: seq<MediaState>, n: int, refs: seq<Ref>,
                                       o: Offer) returns (r: Ref)
    requires WellFormed(t) && Planned(rules) && Grouped(rules, states)
    requires forall r :: r in refs ==> Names(rules, r)
    requires o in RefsOffers(t, rules, states, n, refs)
    ensures r in refs && o in RefOffers(t, rules, states, n, r)
  {
    var rest, last := refs[..|refs| - 1], refs[|refs| - 1];
    if o in RefOffers(t, rules, states, n, last) {
      r := last;
    } else {
      r := OfferingRef(t, rules, states, n, rest, o);
    }
  }

  /** A scan that visits at least every matching branch, in any order, decides
      the same winners as trying everything in source order. */
  lemma {:induction false} ScanEqualsTryEverything(t: Tree, rules: seq<Rule>, states: seq<MediaState>, n: int,
                                                   refs: seq<Ref>,
                                legacy: seq<Declaration>, inline: seq<Declaration>)
    requires WellFormed(t) && Planned(rules) && Grouped(rules, states) && Numbered(rules, legacy, inline)
    requires forall r :: r in refs ==> Names(rules, r)
    requires forall r :: Names(rules, r) && Matches(t, BranchOf(rules, r).selector, n) ==> r in refs
    ensures TakeAll(NOTHING, ScanOffers(t, rules, states, n, refs, legacy, inline))
         == TryEverything(t, rules, states, n, legacy, inline)
  {
    var all := AllRefs(rules, |rules|);
    AllRefsNames(rules, |rules|);
    var xs := ScanOffers(t, rules, states, n, refs, legacy, inline);
    var ys := ScanOffers(t, rules, states, n, all, legacy, inline);
    forall o
      ensures o in xs <==> o in ys
    {
      if o in RefsOffers(t, rules, states, n, refs) {
        var r := OfferingRef(t, rules, states, n, refs, o);
        RefOffered(t, rules, states, n, all, r, o);
      } else if o in RefsOffers(t, rules, states, n, all) {
        var r := OfferingRef(t, rules, states, n, all, o);
        RefOffered(t, rules, states, n, refs, r, o);
      }
    }
    assert AsSet(xs) == AsSet(ys);
    NumberedTiesAgree(t, rules, states, n, refs, legacy, inline);
    OrderIrrelevant(xs, ys);
  }
}
