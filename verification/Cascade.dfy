/** The cascade: which declaration wins each slot, decided one offer at a time
    and without sorting. */
module Cascade {

  datatype Specificity = Specificity(a: int, b: int, c: int) {
    predicate Less(other: Specificity) {
      if a != other.a then a < other.a
      else if b != other.b then b < other.b
      else c < other.c
    }
  }

  const ZERO := Specificity(0, 0, 0)

  const PROPERTIES := 27
  const MARGIN_TOP := 40
  const MARGIN_LEFT := 43
  const MARGIN_INLINE_START := 53
  const MARGIN_BLOCK_END := 56
  const DECLARATION_PROPERTIES := 59
  const ALL_SHORTHAND := DECLARATION_PROPERTIES
  const ANIMATION := ALL_SHORTHAND + 1

  /** `custom` names a custom property, or is empty. `invalidOn` are the nodes on
      which the value does not resolve; `zeroMargin` says that the prepared value
      is a literal zero. */
  datatype Declaration = Declaration(
    prop: int, custom: string, important: bool, order: int,
    unsupported: bool, invalidOn: set<int>, zeroMargin: bool)

  datatype Source = Source(specificity: Specificity, inline: bool, uncertain: bool, schemeDependent: bool, retain: bool)

  datatype Candidate = Candidate(
    d: Declaration, property: int, inline: bool, uncertainOrigin: bool,
    schemeDependent: bool, spec: Specificity)
  {
    predicate Beats(other: Candidate) {
      if d.important != other.d.important then d.important
      else if inline != other.inline then inline
      else if spec != other.spec then other.spec.Less(spec)
      else d.order >= other.d.order
    }
  }

  /** Everything the scan decides: the plain winners and the side tables. */
  datatype Slot =
    | Property(p: int) | Alternate(p: int) | Layout(p: int) | OrdinaryMargin(m: int) | AnimationSlot
    | Variable(name: string) | AlternateVariable(name: string)

  datatype Note = SchemeDeclarations | NonzeroConditionalMargin(m: int) | SchemeEffects(prop: int)

  datatype Offer = Bid(slot: Slot, c: Candidate) | Remark(note: Note)

  datatype Winners = Winners(best: map<Slot, Candidate>, notes: set<Note>)

  const NOTHING := Winners(map[], {})

  function Take(w: Winners, o: Offer): Winners {
    match o
    case Bid(slot, c) =>
      if slot !in w.best || c.Beats(w.best[slot]) then w.(best := w.best[slot := c]) else w
    case Remark(note) => w.(notes := w.notes + {note})
  }

  function TakeAll(w: Winners, offers: seq<Offer>): Winners {
    if offers == [] then w else Take(TakeAll(w, offers[..|offers| - 1]), offers[|offers| - 1])
  }

  lemma {:induction false} TakeAllConcat(w: Winners, xs: seq<Offer>, ys: seq<Offer>)
    ensures TakeAll(w, xs + ys) == TakeAll(TakeAll(w, xs), ys)
  {
    if ys == [] {
      assert xs + ys == xs;
    } else {
      assert (xs + ys)[..|xs + ys| - 1] == xs + ys[..|ys| - 1];
      TakeAllConcat(w, xs, ys[..|ys| - 1]);
    }
  }

  /* What one declaration offers. */

  function MarginIndex(property: int): int {
    if MARGIN_TOP <= property <= MARGIN_LEFT then property - MARGIN_TOP
    else if MARGIN_INLINE_START <= property <= MARGIN_BLOCK_END then 4 + property - MARGIN_INLINE_START
    else -1
  }

  function CandidateOf(d: Declaration, property: int, s: Source): Candidate {
    Candidate(d, property, s.inline, s.uncertain, s.schemeDependent, s.specificity)
  }

  function PropertyOffers(d: Declaration, property: int, s: Source): seq<Offer> {
    var c := CandidateOf(d, property, s);
    if s.schemeDependent && !s.retain && property < PROPERTIES then [Bid(Alternate(property), c)]
    else if property == ANIMATION then [Bid(AnimationSlot, c)]
    else if property >= PROPERTIES then
      (if MarginIndex(property) < 0 then []
       else if !c.uncertainOrigin then [Bid(OrdinaryMargin(MarginIndex(property)), c)]
       else if !d.zeroMargin then [Remark(NonzeroConditionalMargin(MarginIndex(property)))]
       else []) +
      [Bid(Layout(property - PROPERTIES), c)]
    else [Bid(Property(property), c)]
  }

  /** The same declaration offered to the first `k` properties. */
  function BroadcastOffers(d: Declaration, k: nat, s: Source): seq<Offer> {
    if k == 0 then [] else BroadcastOffers(d, k - 1, s) + PropertyOffers(d, k - 1, s)
  }

  predicate Skipped(d: Declaration, n: int) {
    d.custom == "" && !d.unsupported && n in d.invalidOn
  }

  function SchemeOffers(d: Declaration, s: Source): seq<Offer> {
    if !s.schemeDependent then [] else [Remark(SchemeDeclarations)] + AlternateOffers(d, s)
  }

  function AlternateOffers(d: Declaration, s: Source): seq<Offer> {
    if d.custom != "" then [Bid(AlternateVariable(d.custom), CandidateOf(d, d.prop, s))]
    else if d.prop == ALL_SHORTHAND then if s.retain then [] else BroadcastOffers(d, PROPERTIES, s)
    else if d.prop >= PROPERTIES then [Remark(SchemeEffects(d.prop))]
    else if !s.retain && d.prop >= 0 then PropertyOffers(d, d.prop, s)
    else []
  }

  function RetainedOffers(d: Declaration, s: Source): seq<Offer> {
    if !s.retain then []
    else if d.custom != "" then [Bid(Variable(d.custom), CandidateOf(d, d.prop, s))]
    else if d.prop == ALL_SHORTHAND then BroadcastOffers(d, DECLARATION_PROPERTIES, s)
    else PropertyOffers(d, d.prop, s)
  }

  function DeclarationOffers(d: Declaration, n: int, s: Source): seq<Offer> {
    if Skipped(d, n) then [] else SchemeOffers(d, s) + RetainedOffers(d, s)
  }

  function ListOffers(ds: seq<Declaration>, n: int, s: Source): seq<Offer> {
    if ds == [] then [] else ListOffers(ds[..|ds| - 1], n, s) + DeclarationOffers(ds[|ds| - 1], n, s)
  }

  /* Winners depend only on the set of offers. */

  /** Offers of equal rank for one slot are the same candidate. */
  ghost predicate TiesAgree(offers: set<Offer>) {
    forall x, y ::
        x in offers && y in offers && x.Bid? && y.Bid? && x.slot == y.slot && x.c.Beats(y.c) && y.c.Beats(x.c) ==>
        x.c == y.c
  }

  ghost function AsSet(offers: seq<Offer>): set<Offer> {
    set o | o in offers
  }

  /** `w` holds, per slot, an offered candidate that no other offer outranks. */
  ghost predicate Maximal(offers: set<Offer>, w: Winners) {
    && (forall s :: s in w.best ==> Bid(s, w.best[s]) in offers)
    && (forall o :: o in offers && o.Bid? ==> o.slot in w.best && w.best[o.slot].Beats(o.c))
    && (forall x :: x in w.notes <==> Remark(x) in offers)
  }

  lemma {:induction false} BeatsTotal(x: Candidate, y: Candidate)
    ensures x.Beats(y) || y.Beats(x)
  {
  }

  lemma {:induction false} BeatsTransitive(x: Candidate, y: Candidate, z: Candidate)
    requires x.Beats(y) && y.Beats(z)
    ensures x.Beats(z)
  {
  }

  lemma {:induction false} TakeAllMaximal(offers: seq<Offer>)
    ensures Maximal(AsSet(offers), TakeAll(NOTHING, offers))
  {
    if offers != [] {
      var rest, last := offers[..|offers| - 1], offers[|offers| - 1];
      TakeAllMaximal(rest);
      assert forall o :: o in offers <==> o in rest || o == last;
      TakeMaximal(AsSet(rest), TakeAll(NOTHING, rest), last);
      assert AsSet(offers) == AsSet(rest) + {last};
    }
  }

  lemma {:induction false} TakeMaximal(offers: set<Offer>, w: Winners, o: Offer)
    requires Maximal(offers, w)
    ensures Maximal(offers + {o}, Take(w, o))
  {
    if o.Bid? && o.slot in w.best {
      forall x | x in offers && x.Bid? && x.slot == o.slot
        ensures Take(w, o).best[o.slot].Beats(x.c)
      {
        if o.c.Beats(w.best[o.slot]) {
          BeatsTransitive(o.c, w.best[o.slot], x.c);
        }
      }
      BeatsTotal(o.c, w.best[o.slot]);
    }
  }

  lemma {:induction false} MaximalUnique(offers: set<Offer>, v: Winners, w: Winners)
    requires Maximal(offers, v) && Maximal(offers, w) && TiesAgree(offers)
    ensures v == w
  {
    forall s | s in v.best
      ensures s in w.best && v.best[s] == w.best[s]
    {
      var x, y := Bid(s, v.best[s]), Bid(s, w.best[s]);
      assert x in offers && y in offers && x.c.Beats(y.c) && y.c.Beats(x.c);
    }
    forall s | s in w.best
      ensures s in v.best
    {
      assert Bid(s, w.best[s]) in offers;
    }
    assert v.best == w.best;
    assert v.notes == w.notes;
  }

  /** Scanning the same offers in any order, any number of times each, gives the
      same winners. */
  lemma {:induction false} OrderIrrelevant(xs: seq<Offer>, ys: seq<Offer>)
    requires AsSet(xs) == AsSet(ys) && TiesAgree(AsSet(xs))
    ensures TakeAll(NOTHING, xs) == TakeAll(NOTHING, ys)
  {
    TakeAllMaximal(xs);
    TakeAllMaximal(ys);
    MaximalUnique(AsSet(xs), TakeAll(NOTHING, xs), TakeAll(NOTHING, ys));
  }

  /* The scan itself. */

  method ApplyProperty(d: Declaration, property: int, s: Source, w: Winners) returns (r: Winners)
    ensures r == TakeAll(w, PropertyOffers(d, property, s))
  {
    var c := CandidateOf(d, property, s);
    ghost var offers := PropertyOffers(d, property, s);
    if s.schemeDependent && !s.retain && property < PROPERTIES {
      OneOffer(w, offers[0]);
      return Take(w, Bid(Alternate(property), c));
    }
    if property == ANIMATION {
      OneOffer(w, offers[0]);
      return Take(w, Bid(AnimationSlot, c));
    }
    if property >= PROPERTIES {
      r := w;
      var m := MarginIndex(property);
      if m >= 0 {
        if !c.uncertainOrigin {
          r := Take(r, Bid(OrdinaryMargin(m), c));
          TwoOffers(w, offers[0], offers[1]);
        } else if !d.zeroMargin {
          r := Take(r, Remark(NonzeroConditionalMargin(m)));
          TwoOffers(w, offers[0], offers[1]);
        } else {
          OneOffer(w, offers[0]);
        }
      } else {
        OneOffer(w, offers[0]);
      }
      return Take(r, Bid(Layout(property - PROPERTIES), c));
    }
    OneOffer(w, offers[0]);
    return Take(w, Bid(Property(property), c));
  }

  lemma {:induction false} OneOffer(w: Winners, o: Offer)
    ensures TakeAll(w, [o]) == Take(w, o)
  {
    assert [o][..0] == [];
  }

  lemma {:induction false} TwoOffers(w: Winners, o: Offer, p: Offer)
    ensures TakeAll(w, [o, p]) == Take(Take(w, o), p)
  {
    assert [o, p][..1] == [o];
    OneOffer(w, o);
  }

  method Broadcast(d: Declaration, k: nat, s: Source, w: Winners) returns (r: Winners)
    ensures r == TakeAll(w, BroadcastOffers(d, k, s))
  {
    r := w;
    for p := 0 to k
      invariant r == TakeAll(w, BroadcastOffers(d, p, s))
    {
      TakeAllConcat(w, BroadcastOffers(d, p, s), PropertyOffers(d, p, s));
      r := ApplyProperty(d, p, s, r);
    }
  }

  /** Apply one list of declarations to the winners found so far. */
  method Apply(ds: seq<Declaration>, n: int, s: Source, w: Winners) returns (r: Winners)
    ensures r == TakeAll(w, ListOffers(ds, n, s))
  {
    r := w;
    for i := 0 to |ds|
      invariant r == TakeAll(w, ListOffers(ds[..i], n, s))
    {
      assert ds[..i + 1][..i] == ds[..i];
      TakeAllConcat(w, ListOffers(ds[..i], n, s), DeclarationOffers(ds[i], n, s));
      if !Skipped(ds[i], n) {
        TakeAllConcat(r, SchemeOffers(ds[i], s), RetainedOffers(ds[i], s));
        r := ApplyScheme(ds[i], s, r);
        r := ApplyRetained(ds[i], s, r);
      }
    }
    assert ds[..|ds|] == ds;
  }

  method ApplyScheme(d: Declaration, s: Source, w: Winners) returns (r: Winners)
    ensures r == TakeAll(w, SchemeOffers(d, s))
  {
    r := w;
    if s.schemeDependent {
      TakeAllConcat(w, [Remark(SchemeDeclarations)], AlternateOffers(d, s));
      OneOffer(w, Remark(SchemeDeclarations));
      r := Take(r, Remark(SchemeDeclarations));
      r := ApplyAlternate(d, s, r);
    }
  }

  method ApplyAlternate(d: Declaration, s: Source, w: Winners) returns (r: Winners)
    ensures r == TakeAll(w, AlternateOffers(d, s))
  {
    r := w;
    if d.custom != "" {
      OneOffer(r, Bid(AlternateVariable(d.custom), CandidateOf(d, d.prop, s)));
      return Take(r, Bid(AlternateVariable(d.custom), CandidateOf(d, d.prop, s)));
    }
    if !s.retain && 0 <= d.prop < PROPERTIES {
      r := ApplyProperty(d, d.prop, s, r);
    }
    if !s.retain && d.prop == ALL_SHORTHAND {
      r := Broadcast(d, PROPERTIES, s, r);
    }
    if d.prop >= PROPERTIES && d.prop != ALL_SHORTHAND {
      OneOffer(r, Remark(SchemeEffects(d.prop)));
      r := Take(r, Remark(SchemeEffects(d.prop)));
    }
  }

  method ApplyRetained(d: Declaration, s: Source, w: Winners) returns (r: Winners)
    ensures r == TakeAll(w, RetainedOffers(d, s))
  {
    r := w;
    if !s.retain {
      return;
    }
    if d.custom != "" {
      OneOffer(r, Bid(Variable(d.custom), CandidateOf(d, d.prop, s)));
      r := Take(r, Bid(Variable(d.custom), CandidateOf(d, d.prop, s)));
    } else if d.prop == ALL_SHORTHAND {
      r := Broadcast(d, DECLARATION_PROPERTIES, s, r);
    } else {
      r := ApplyProperty(d, d.prop, s, r);
    }
  }
}
