/** Who wins: the outcome of the cascade, said without the comparison that decides
    it and without the offers that are compared. */
module CascadeOrder {
  import opened Documents
  import opened Selectors
  import opened ActiveAncestors
  import opened Cascade
  import opened Media
  import opened Stylesheets

  /* Rank. */

  /** Importance first, then inline declarations, then specificity component by
      component, then the later declaration. */
  predicate AtLeast(w: Candidate, x: Candidate) {
    && (x.d.important ==> w.d.important)
    && (x.d.important == w.d.important ==>
          && (x.inline ==> w.inline)
          && (x.inline == w.inline ==>
                && w.spec.a >= x.spec.a
                && (w.spec.a == x.spec.a ==>
                      && w.spec.b >= x.spec.b
                      && (w.spec.b == x.spec.b ==>
                            && w.spec.c >= x.spec.c
                            && (w.spec.c == x.spec.c ==> w.d.order >= x.d.order)))))
  }

  /** The winner of a slot was bid for it and ranks at least as high as every bid. */
  lemma {:induction false} WinnerRanksHighest(offers: seq<Offer>, slot: Slot)
    ensures slot in TakeAll(NOTHING, offers).best <==> exists c :: Bid(slot, c) in offers
    ensures slot in TakeAll(NOTHING, offers).best ==>
              var w := TakeAll(NOTHING, offers).best[slot];
              Bid(slot, w) in offers && forall x :: Bid(slot, x) in offers ==> AtLeast(w, x)
  {
    TakeAllMaximal(offers);
    var all := TakeAll(NOTHING, offers);
    if slot in all.best {
      var w := all.best[slot];
      assert Bid(slot, w) in AsSet(offers);
      forall x | Bid(slot, x) in offers
        ensures AtLeast(w, x)
      {
        assert Bid(slot, x) in AsSet(offers);
        BeatsIsRank(w, x);
      }
    } else {
      forall c
        ensures Bid(slot, c) !in offers
      {
        assert Bid(slot, c) in offers ==> Bid(slot, c) in AsSet(offers);
      }
    }
  }

  lemma {:induction false} BeatsIsRank(w: Candidate, x: Candidate)
    ensures w.Beats(x) <==> AtLeast(w, x)
  {
  }

  /* Reach. */

  /** The slots that the cascade decides. */
  predicate Decided(slot: Slot) {
    match slot
    case Property(p) => 0 <= p < 27
    case Alternate(p) => 0 <= p < 27
    case Layout(p) => 0 <= p < 32
    case OrdinaryMargin(m) => 0 <= m < 8
    case AnimationSlot => true
    case Variable(name) => name != ""
    case AlternateVariable(name) => name != ""
  }

  /** The property that a slot stands for; layout properties follow the visual ones,
      the four physical margins are numbered from 40 and the four logical from 53. */
  function PropertyOf(slot: Slot): int
    requires Decided(slot) && !slot.Variable? && !slot.AlternateVariable?
  {
    match slot
    case Property(p) => p
    case Alternate(p) => p
    case Layout(p) => 27 + p
    case OrdinaryMargin(m) => if m < 4 then 40 + m else 49 + m
    case AnimationSlot => 60
  }

  /** The declaration sets what the slot stands for, by its own name or, except for
      animations, by the shorthand for everything. */
  predicate Sets(d: Declaration, slot: Slot)
    requires Decided(slot)
  {
    match slot
    case Variable(name) => d.custom == name
    case AlternateVariable(name) => d.custom == name
    case _ => d.custom == "" && (d.prop == PropertyOf(slot) || (d.prop == 59 && slot != AnimationSlot))
  }

  function SlotProperty(d: Declaration, slot: Slot): int
    requires Decided(slot)
  {
    if slot.Variable? || slot.AlternateVariable? then d.prop else PropertyOf(slot)
  }

  /** A source that is kept in the ordinary cascade fills the ordinary slots, and
      margins only where it is certain; one for the other colour scheme only fills
      the alternates, which for custom properties any scheme-dependent source does. */
  predicate Fills(s: Source, slot: Slot) {
    match slot
    case Alternate(_) => s.schemeDependent && !s.retain
    case AlternateVariable(_) => s.schemeDependent
    case OrdinaryMargin(_) => s.retain && !s.uncertain
    case _ => s.retain
  }

  /** `c` is the declaration `d` of source `s`, bid for the slot at element `n`. */
  predicate Stands(d: Declaration, s: Source, n: int, slot: Slot, c: Candidate)
    requires Decided(slot)
  {
    && Sets(d, slot) && Fills(s, slot) && (d.custom == "" && !d.unsupported ==> n !in d.invalidOn)
    && c == Candidate(d, SlotProperty(d, slot), s.inline, s.uncertain, s.schemeDependent, s.specificity)
  }

  lemma {:induction false} PropertyBids(d: Declaration, property: int, s: Source, slot: Slot, c: Candidate)
    requires Decided(slot)
    ensures Bid(slot, c) in PropertyOffers(d, property, s) <==>
            && !slot.Variable? && !slot.AlternateVariable? && property == PropertyOf(slot)
            && c == CandidateOf(d, property, s)
            && (if slot.Alternate? then s.schemeDependent && !s.retain
                else if slot.Property? then !(s.schemeDependent && !s.retain)
                else slot.OrdinaryMargin? ==> !s.uncertain)
  {
  }

  lemma {:induction false} BroadcastOf(d: Declaration, k: nat, s: Source, o: Offer) returns (p: nat)
    requires o in BroadcastOffers(d, k, s)
    ensures p < k && o in PropertyOffers(d, p, s)
  {
    if o in BroadcastOffers(d, k - 1, s) {
      p := BroadcastOf(d, k - 1, s, o);
    } else {
      p := k - 1;
    }
  }

  lemma {:induction false} BroadcastOffered(d: Declaration, k: nat, s: Source, o: Offer, p: nat)
    requires p < k && o in PropertyOffers(d, p, s)
    ensures o in BroadcastOffers(d, k, s)
  {
    if p < k - 1 {
      BroadcastOffered(d, k - 1, s, o, p);
    }
  }

  lemma {:induction false} BroadcastBids(d: Declaration, k: nat, s: Source, slot: Slot, c: Candidate)
    requires Decided(slot)
    ensures Bid(slot, c) in BroadcastOffers(d, k, s) <==>
            && !slot.Variable? && !slot.AlternateVariable? && 0 <= PropertyOf(slot) < k
            && Bid(slot, c) in PropertyOffers(d, PropertyOf(slot), s)
  {
    if Bid(slot, c) in BroadcastOffers(d, k, s) {
      var p := BroadcastOf(d, k, s, Bid(slot, c));
      PropertyBids(d, p, s, slot, c);
    }
    if !slot.Variable? && !slot.AlternateVariable? && 0 <= PropertyOf(slot) < k &&
       Bid(slot, c) in PropertyOffers(d, PropertyOf(slot), s) {
      BroadcastOffered(d, k, s, Bid(slot, c), PropertyOf(slot));
    }
  }

  lemma {:induction false} AlternateBids(d: Declaration, s: Source, slot: Slot, c: Candidate)
    requires Decided(slot) && s.schemeDependent
    ensures Bid(slot, c) in AlternateOffers(d, s) <==>
            && (slot.Alternate? || slot.AlternateVariable?) && Sets(d, slot) && Fills(s, slot)
            && c == CandidateOf(d, SlotProperty(d, slot), s)
  {
    BroadcastBids(d, PROPERTIES, s, slot, c);
    PropertyBids(d, d.prop, s, slot, c);
    if !slot.Variable? && !slot.AlternateVariable? {
      PropertyBids(d, PropertyOf(slot), s, slot, c);
    }
  }

  lemma {:induction false} RetainedBids(d: Declaration, s: Source, slot: Slot, c: Candidate)
    requires Decided(slot)
    ensures Bid(slot, c) in RetainedOffers(d, s) <==>
            && !slot.Alternate? && !slot.AlternateVariable? && Sets(d, slot) && Fills(s, slot)
            && c == CandidateOf(d, SlotProperty(d, slot), s)
  {
    BroadcastBids(d, DECLARATION_PROPERTIES, s, slot, c);
    PropertyBids(d, d.prop, s, slot, c);
    if !slot.Variable? && !slot.AlternateVariable? {
      PropertyBids(d, PropertyOf(slot), s, slot, c);
    }
  }

  lemma {:induction false} DeclarationBids(d: Declaration, n: int, s: Source, slot: Slot, c: Candidate)
    requires Decided(slot)
    ensures Bid(slot, c) in DeclarationOffers(d, n, s) <==> Stands(d, s, n, slot, c)
  {
    RetainedBids(d, s, slot, c);
    if s.schemeDependent {
      AlternateBids(d, s, slot, c);
    }
  }

  /** Some declaration of the list stands for the slot. */
  ghost predicate Listed(ds: seq<Declaration>, s: Source, n: int, slot: Slot, c: Candidate)
    requires Decided(slot)
  {
    exists i :: 0 <= i < |ds| && Stands(ds[i], s, n, slot, c)
  }

  lemma {:induction false} OfferOf(ds: seq<Declaration>, n: int, s: Source, o: Offer) returns (i: nat)
    requires o in ListOffers(ds, n, s)
    ensures i < |ds| && o in DeclarationOffers(ds[i], n, s)
  {
    var rest := ds[..|ds| - 1];
    if o in ListOffers(rest, n, s) {
      i := OfferOf(rest, n, s, o);
    } else {
      i := |ds| - 1;
    }
  }

  lemma {:induction false} OfferListed(ds: seq<Declaration>, n: int, s: Source, o: Offer, i: nat)
    requires i < |ds| && o in DeclarationOffers(ds[i], n, s)
    ensures o in ListOffers(ds, n, s)
  {
    if i < |ds| - 1 {
      OfferListed(ds[..|ds| - 1], n, s, o, i);
    }
  }

  lemma {:induction false} ListBids(ds: seq<Declaration>, n: int, s: Source, slot: Slot, c: Candidate)
    requires Decided(slot)
    ensures Bid(slot, c) in ListOffers(ds, n, s) <==> Listed(ds, s, n, slot, c)
  {
    if Bid(slot, c) in ListOffers(ds, n, s) {
      var i := OfferOf(ds, n, s, Bid(slot, c));
      DeclarationBids(ds[i], n, s, slot, c);
    }
    if Listed(ds, s, n, slot, c) {
      var i :| 0 <= i < |ds| && Stands(ds[i], s, n, slot, c);
      DeclarationBids(ds[i], n, s, slot, c);
      OfferListed(ds, n, s, Bid(slot, c), i);
    }
  }

  /* The whole sheet. */

  /** Where a matching branch stands under its rule's media state. A state that holds
      in the other colour scheme only keeps the branch out of the ordinary cascade. */
  function AuthorSource(rule: Rule, branch: Branch, state: MediaState): Source {
    Source(branch.specificity, false, state == Unknown || (rule.uncertainOrigin && state != AlternateColourScheme),
           state == YesColourScheme || state == AlternateColourScheme, state != AlternateColourScheme)
  }

  /** A branch of a rule that is not switched off matches the element, and a
      declaration of the rule stands for the slot. */
  ghost predicate BranchClaims(t: Tree, rules: seq<Rule>, states: seq<MediaState>, n: int, i: int, j: int, slot: Slot,
                               c: Candidate)
    requires WellFormed(t) && Planned(rules) && Grouped(rules, states) && Decided(slot)
  {
    && 0 <= i < |rules| && 0 <= j < |rules[i].plans|
    && var rule, branch, state := rules[i], rules[i].plans[j], states[rules[i].mediaGroup];
    && state != No && BranchPlanned(branch) && Matches(t, branch.selector, n)
    && Listed(rule.decls, AuthorSource(rule, branch, state), n, slot, c)
  }

  /** A presentational hint, an inline declaration or a matching branch claims the slot. */
  ghost predicate Claimed(t: Tree, rules: seq<Rule>, states: seq<MediaState>, n: int, legacy: seq<Declaration>,
                          inline: seq<Declaration>, slot: Slot, c: Candidate)
    requires WellFormed(t) && Planned(rules) && Grouped(rules, states) && Decided(slot)
  {
    || Listed(legacy, Source(Specificity(0, 0, 0), false, false, false, true), n, slot, c)
    || Listed(inline, Source(Specificity(0, 0, 0), true, false, false, true), n, slot, c)
    || exists i, j :: BranchClaims(t, rules, states, n, i, j, slot, c)
  }

  /** Every slot is won by a claim that ranks at least as high as every claim, and is
      won whenever it is claimed. */
  ghost predicate RightlyWon(t: Tree, rules: seq<Rule>, states: seq<MediaState>, n: int, legacy: seq<Declaration>,
                             inline: seq<Declaration>, w: Winners)
    requires WellFormed(t) && Planned(rules) && Grouped(rules, states)
  {
    forall slot {:trigger Decided(slot)} :: Decided(slot) ==>
      && (slot in w.best <==> exists c :: Claimed(t, rules, states, n, legacy, inline, slot, c))
      && (slot in w.best ==>
            && Claimed(t, rules, states, n, legacy, inline, slot, w.best[slot])
            && forall x :: Claimed(t, rules, states, n, legacy, inline, slot, x) ==> AtLeast(w.best[slot], x))
  }

  lemma {:induction false} RefBids(t: Tree, rules: seq<Rule>, states: seq<MediaState>, n: int, r: Ref, slot: Slot,
                                   c: Candidate)
    requires WellFormed(t) && Planned(rules) && Grouped(rules, states) && Decided(slot) && Names(rules, r)
    ensures Bid(slot, c) in RefOffers(t, rules, states, n, r) <==>
            BranchClaims(t, rules, states, n, r.rule, r.branch, slot, c)
  {
    var rule, branch := rules[r.rule], rules[r.rule].plans[r.branch];
    var state := states[rule.mediaGroup];
    assert BranchPlanned(branch) && RuleSource(state, rule, branch) == AuthorSource(rule, branch, state);
    ListBids(rule.decls, n, AuthorSource(rule, branch, state), slot, c);
  }

  lemma {:induction false} RefOf(t: Tree, rules: seq<Rule>, states: seq<MediaState>, n: int, refs: seq<Ref>, o: Offer)
    returns (r: Ref)
    requires WellFormed(t) && Planned(rules) && Grouped(rules, states) && forall r :: r in refs ==> Names(rules, r)
    requires o in RefsOffers(t, rules, states, n, refs)
    ensures r in refs && o in RefOffers(t, rules, states, n, r)
  {
    var rest, last := refs[..|refs| - 1], refs[|refs| - 1];
    if o in RefsOffers(t, rules, states, n, rest) {
      r := RefOf(t, rules, states, n, rest, o);
    } else {
      r := last;
    }
  }

  lemma {:induction false} RefOffered(t: Tree, rules: seq<Rule>, states: seq<MediaState>, n: int, refs: seq<Ref>,
                                      o: Offer, k: nat)
    requires WellFormed(t) && Planned(rules) && Grouped(rules, states) && forall r :: r in refs ==> Names(rules, r)
    requires k < |refs| && o in RefOffers(t, rules, states, n, refs[k])
    ensures o in RefsOffers(t, rules, states, n, refs)
  {
    if k < |refs| - 1 {
      RefOffered(t, rules, states, n, refs[..|refs| - 1], o, k);
    }
  }

  lemma {:induction false} SheetBids(t: Tree, rules: seq<Rule>, states: seq<MediaState>, n: int, slot: Slot,
                                     c: Candidate)
    requires WellFormed(t) && Planned(rules) && Grouped(rules, states) && Decided(slot)
    ensures forall r :: r in AllRefs(rules, |rules|) ==> Names(rules, r)
    ensures Bid(slot, c) in RefsOffers(t, rules, states, n, AllRefs(rules, |rules|)) <==>
            exists i, j :: BranchClaims(t, rules, states, n, i, j, slot, c)
  {
    var refs := AllRefs(rules, |rules|);
    AllRefsNames(rules, |rules|);
    if Bid(slot, c) in RefsOffers(t, rules, states, n, refs) {
      var r := RefOf(t, rules, states, n, refs, Bid(slot, c));
      RefBids(t, rules, states, n, r, slot, c);
    }
    if i, j :| BranchClaims(t, rules, states, n, i, j, slot, c) {
      var r := Ref(i, j, rules[i].plans[j].sequence);
      RefBids(t, rules, states, n, r, slot, c);
      assert r in refs;
      var k :| 0 <= k < |refs| && refs[k] == r;
      RefOffered(t, rules, states, n, refs, Bid(slot, c), k);
    }
  }

  lemma {:induction false} ScanBids(t: Tree, rules: seq<Rule>, states: seq<MediaState>, n: int,
                                    legacy: seq<Declaration>, inline: seq<Declaration>, slot: Slot, c: Candidate)
    requires WellFormed(t) && Planned(rules) && Grouped(rules, states) && Decided(slot)
    ensures forall r :: r in AllRefs(rules, |rules|) ==> Names(rules, r)
    ensures Bid(slot, c) in ScanOffers(t, rules, states, n, AllRefs(rules, |rules|), legacy, inline) <==>
            Claimed(t, rules, states, n, legacy, inline, slot, c)
  {
    SheetBids(t, rules, states, n, slot, c);
    ListBids(legacy, n, LEGACY, slot, c);
    ListBids(inline, n, INLINE, slot, c);
  }

  /** Trying every branch of every rule leaves every slot rightly won. */
  lemma {:induction false} WinnersAreRight(t: Tree, rules: seq<Rule>, states: seq<MediaState>, n: int,
                                           legacy: seq<Declaration>, inline: seq<Declaration>)
    requires WellFormed(t) && Planned(rules) && Grouped(rules, states)
    ensures RightlyWon(t, rules, states, n, legacy, inline, TryEverything(t, rules, states, n, legacy, inline))
  {
    var w := TryEverything(t, rules, states, n, legacy, inline);
    forall slot | Decided(slot)
      ensures slot in w.best <==> exists c :: Claimed(t, rules, states, n, legacy, inline, slot, c)
      ensures slot in w.best ==>
                && Claimed(t, rules, states, n, legacy, inline, slot, w.best[slot])
                && forall x :: Claimed(t, rules, states, n, legacy, inline, slot, x) ==> AtLeast(w.best[slot], x)
    {
      SlotIsRight(t, rules, states, n, legacy, inline, slot);
    }
  }

  lemma {:induction false} SlotIsRight(t: Tree, rules: seq<Rule>, states: seq<MediaState>, n: int,
                                       legacy: seq<Declaration>, inline: seq<Declaration>, slot: Slot)
    requires WellFormed(t) && Planned(rules) && Grouped(rules, states) && Decided(slot)
    ensures var w := TryEverything(t, rules, states, n, legacy, inline);
            && (slot in w.best <==> exists c :: Claimed(t, rules, states, n, legacy, inline, slot, c))
            && (slot in w.best ==>
                  && Claimed(t, rules, states, n, legacy, inline, slot, w.best[slot])
                  && forall x :: Claimed(t, rules, states, n, legacy, inline, slot, x) ==> AtLeast(w.best[slot], x))
  {
    AllRefsNames(rules, |rules|);
    var offers := ScanOffers(t, rules, states, n, AllRefs(rules, |rules|), legacy, inline);
    WinnerRanksHighest(offers, slot);
    forall c
      ensures Bid(slot, c) in offers <==> Claimed(t, rules, states, n, legacy, inline, slot, c)
    {
      ScanBids(t, rules, states, n, legacy, inline, slot, c);
    }
  }
}
