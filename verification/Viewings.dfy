/** Every viewing case of a document: the cascade at the widths that stand in for
    all widths. */
module Viewings {
  import opened Documents
  import opened ActiveAncestors
  import opened Cascade
  import CascadeOrder
  import opened Media
  import opened Stylesheets
  import opened SelectorIndex
  import opened SheetCaches
  import opened ViewingCases
  import opened ViewingWalk
  import Inspection

  /* Rules that differ in their media groups only. */

  function InGroups(rules: seq<Rule>, groups: seq<nat>): (grouped: seq<Rule>)
    requires |groups| == |rules|
    ensures |grouped| == |rules| && SameRules(rules, grouped)
    ensures forall i :: 0 <= i < |rules| ==> grouped[i].mediaGroup == groups[i]
  {
    seq(|rules|, i requires 0 <= i < |rules| => rules[i].(mediaGroup := groups[i]))
  }

  predicate SameRules(rules: seq<Rule>, others: seq<Rule>) {
    && |rules| == |others|
    && forall i :: 0 <= i < |rules| ==> others[i] == rules[i].(mediaGroup := others[i].mediaGroup)
  }

  predicate SameStates(rules: seq<Rule>, states: seq<MediaState>, others: seq<Rule>, theirs: seq<MediaState>) {
    && |rules| == |others| && Grouped(rules, states) && Grouped(others, theirs)
    && forall i :: 0 <= i < |rules| ==> states[rules[i].mediaGroup] == theirs[others[i].mediaGroup]
  }

  lemma {:induction false} SamePlanned(rules: seq<Rule>, others: seq<Rule>)
    requires Planned(rules) && SameRules(rules, others)
    ensures Planned(others)
  {
    forall i, j | 0 <= i < |others| && 0 <= j < |others[i].plans|
      ensures BranchPlanned(others[i].plans[j])
    {
      assert others[i].plans[j] == rules[i].plans[j];
    }
    forall r, s | Names(others, r) && Names(others, s) && r.sequence == s.sequence
      ensures r == s
    {
      assert Names(rules, r) && Names(rules, s);
    }
  }

  lemma {:induction false} SameNumbered(rules: seq<Rule>, others: seq<Rule>, legacy: seq<Declaration>,
                                        inline: seq<Declaration>)
    requires Numbered(rules, legacy, inline) && SameRules(rules, others)
    ensures Numbered(others, legacy, inline)
  {
    assert forall i :: 0 <= i < |rules| ==> others[i].decls == rules[i].decls;
  }

  lemma {:induction false} SameRuleRefs(rules: seq<Rule>, others: seq<Rule>, i: nat, k: nat)
    requires SameRules(rules, others) && i < |rules| && k <= |rules[i].plans|
    ensures k <= |others[i].plans| && RuleRefs(others, i, k) == RuleRefs(rules, i, k)
  {
    if k > 0 {
      SameRuleRefs(rules, others, i, k - 1);
    }
  }

  lemma {:induction false} SameRefs(rules: seq<Rule>, others: seq<Rule>, i: nat)
    requires SameRules(rules, others) && i <= |rules|
    ensures AllRefs(others, i) == AllRefs(rules, i)
  {
    if i > 0 {
      SameRefs(rules, others, i - 1);
      SameRuleRefs(rules, others, i - 1, |rules[i - 1].plans|);
    }
  }

  lemma {:induction false} SameRefOffers(t: Tree, rules: seq<Rule>, states: seq<MediaState>, others: seq<Rule>,
                                         theirs: seq<MediaState>, n: int, r: Ref)
    requires WellFormed(t) && Planned(rules) && Planned(others) && SameRules(rules, others)
    requires SameStates(rules, states, others, theirs) && Names(rules, r)
    ensures Names(others, r) && RefOffers(t, others, theirs, n, r) == RefOffers(t, rules, states, n, r)
  {
    assert others[r.rule] == rules[r.rule].(mediaGroup := others[r.rule].mediaGroup);
  }

  lemma {:induction false} SameRefsOffers(t: Tree, rules: seq<Rule>, states: seq<MediaState>, others: seq<Rule>,
                                          theirs: seq<MediaState>, n: int, refs: seq<Ref>)
    requires WellFormed(t) && Planned(rules) && Planned(others) && SameRules(rules, others)
    requires SameStates(rules, states, others, theirs) && forall r :: r in refs ==> Names(rules, r) && Names(others, r)
    ensures RefsOffers(t, others, theirs, n, refs) == RefsOffers(t, rules, states, n, refs)
  {
    if refs != [] {
      assert refs[|refs| - 1] in refs;
      SameRefsOffers(t, rules, states, others, theirs, n, refs[..|refs| - 1]);
      SameRefOffers(t, rules, states, others, theirs, n, refs[|refs| - 1]);
    }
  }

  /** How rules are grouped does not matter, only the state each one gets. */
  lemma {:induction false} Regrouped(t: Tree, rules: seq<Rule>, states: seq<MediaState>, others: seq<Rule>,
                                     theirs: seq<MediaState>, n: int, legacy: seq<Declaration>,
                                         inline: seq<Declaration>)
    requires WellFormed(t) && Planned(rules) && Planned(others) && SameRules(rules, others)
    requires SameStates(rules, states, others, theirs)
    ensures TryEverything(t, others, theirs, n, legacy, inline) == TryEverything(t, rules, states, n, legacy, inline)
  {
    AllRefsNames(rules, |rules|);
    AllRefsNames(others, |others|);
    SameRefs(rules, others, |rules|);
    SameRefsOffers(t, rules, states, others, theirs, n, AllRefs(rules, |rules|));
  }

  /* The reference: each rule is judged by its own condition chain. */

  /** A document, its rules and the condition chain of each. */
  datatype Styled = Styled(tree: Tree, rules: seq<Rule>, frames: Frames, conditions: seq<int>)
  {
    ghost predicate Valid() {
      && Parsed(tree) && tree != [] && Planned(rules)
      && |conditions| == |rules| && Linked(frames) && AreFrames(frames, conditions)
    }

    /** Every rule is its own group. */
    function Own(): (own: seq<Rule>)
      ensures |own| == |rules| && SameRules(rules, own) && forall i :: 0 <= i < |rules| ==> own[i].mediaGroup == i
    {
      InGroups(rules, seq(|rules|, i => i))
    }

    /** The winners at an element seen at this width, by trying every branch of
        every rule under the state of the rule's own chain. */
    ghost function WinnersAt(width: real, fallback: bool, n: int, legacy: seq<Declaration>,
                             inline: seq<Declaration>): Winners
      requires Valid()
    {
      SamePlanned(rules, Own());
      TryEverything(tree, Own(), GroupStates(frames, conditions, width, fallback), n, legacy, inline)
    }

    /** Those winners are the highest-ranking claims at that width. */
    lemma {:induction false} WinnersAreRight(width: real, fallback: bool, n: int, legacy: seq<Declaration>,
                                             inline: seq<Declaration>)
      requires Valid()
      ensures Planned(Own())
      ensures CascadeOrder.RightlyWon(tree, Own(), GroupStates(frames, conditions, width, fallback), n, legacy, inline,
                                      WinnersAt(width, fallback, n, legacy, inline))
    {
      SamePlanned(rules, Own());
      CascadeOrder.WinnersAreRight(tree, Own(), GroupStates(frames, conditions, width, fallback), n, legacy, inline);
    }

    /** The chains of the rules that are kept. */
    ghost predicate Chains(kept: seq<Rule>, chains: seq<int>) {
      && kept == SelectorIndex.Kept(Own()) && |chains| == |kept|
      && forall i :: 0 <= i < |kept| ==>
          kept[i].mediaGroup < |conditions| && chains[i] == conditions[kept[i].mediaGroup]
    }

    /** Kept rules and shared groups give the winners of the reference. */
    lemma {:induction false} GroupedWinners(kept: seq<Rule>, chains: seq<int>, groups: seq<int>, chosen: seq<nat>,
                                            width: real, fallback: bool, n: int,
                                            legacy: seq<Declaration>, inline: seq<Declaration>)
      requires Valid() && Chains(kept, chains) && AreFrames(frames, groups) && |chosen| == |kept|
      requires forall i :: 0 <= i < |kept| ==> chosen[i] < |groups| && groups[chosen[i]] == chains[i]
      ensures Planned(InGroups(kept, chosen))
      ensures Grouped(InGroups(kept, chosen), GroupStates(frames, groups, width, fallback))
      ensures TryEverything(tree, InGroups(kept, chosen), GroupStates(frames, groups, width, fallback), n, legacy,
                            inline) ==
              WinnersAt(width, fallback, n, legacy, inline)
    {
      var own, states, shared := Own(), GroupStates(frames, conditions, width, fallback),
          GroupStates(frames, groups, width, fallback);
      SamePlanned(rules, own);
      Inspection.DroppedRulesAreSilent(tree, own, states, n, legacy, inline);
      SamePlanned(kept, InGroups(kept, chosen));
      Regrouped(tree, kept, states, InGroups(kept, chosen), shared, n, legacy, inline);
    }
  }

  /* The pass over all viewing cases. */

  /** Each node's presentational hints and inline declarations are numbered apart
      from the rules'. */
  ghost predicate AllNumbered(t: Tree, rules: seq<Rule>, legacy: seq<seq<Declaration>>, inline: seq<seq<Declaration>>) {
    |legacy| == |inline| == |t| && forall n :: 0 <= n < |t| ==> Numbered(rules, legacy[n], inline[n])
  }

  lemma {:induction false} NothingDropped(rules: seq<Rule>)
    requires forall i :: 0 <= i < |rules| ==> rules[i].decls != []
    ensures SelectorIndex.Kept(rules) == rules
  {
    if rules != [] {
      var rest, last := rules[..|rules| - 1], rules[|rules| - 1];
      NothingDropped(rest);
      assert SelectorIndex.Kept(rules) == rest + [last];
      assert rest + [last] == rules;
    }
  }

  lemma {:induction false} KeptAllNumbered(t: Tree, rules: seq<Rule>, others: seq<Rule>, kept: seq<Rule>,
                                           chosen: seq<nat>, legacy: seq<seq<Declaration>>,
                                               inline: seq<seq<Declaration>>)
    requires AllNumbered(t, rules, legacy, inline) && SameRules(rules, others)
    requires kept == SelectorIndex.Kept(others) && |chosen| == |kept|
    ensures AllNumbered(t, InGroups(kept, chosen), legacy, inline)
  {
    forall n | 0 <= n < |t|
      ensures Numbered(InGroups(kept, chosen), legacy[n], inline[n])
    {
      SameNumbered(rules, others, legacy[n], inline[n]);
      Inspection.KeptNumbered(others, legacy[n], inline[n]);
      SameNumbered(kept, InGroups(kept, chosen), legacy[n], inline[n]);
    }
  }

  lemma {:induction false} NoneDropped(others: seq<Rule>, kept: seq<Rule>, chosen: seq<nat>)
    requires kept == SelectorIndex.Kept(others) && |chosen| == |kept|
    ensures SelectorIndex.Kept(InGroups(kept, chosen)) == InGroups(kept, chosen)
  {
    var grouped := InGroups(kept, chosen);
    forall i | 0 <= i < |grouped|
      ensures grouped[i].decls != []
    {
      assert kept[i] in kept;
    }
    NothingDropped(grouped);
  }

  method ChainsOf(styled: Styled) returns (kept: seq<Rule>, chains: seq<int>)
    requires styled.Valid()
    ensures styled.Chains(kept, chains) && AreFrames(styled.frames, chains)
  {
    var own := styled.Own();
    kept := KeepRules(own);
    forall i | 0 <= i < |kept|
      ensures kept[i].mediaGroup < |styled.conditions|
    {
      var a := Inspection.KeptOrigin(own, i);
    }
    chains := seq(|kept|, i requires 0 <= i < |kept| => styled.conditions[kept[i].mediaGroup]);
  }

  /** What one viewing case must give, unfolded only where a proof names `SeenFor`. */
  ghost predicate SeenAt(styled: Styled, legacy: seq<seq<Declaration>>, inline: seq<seq<Declaration>>,
                         width: real, fallback: bool, results: map<int, Winners>)
    requires styled.Valid() && |legacy| == |inline| == |styled.tree|
  {
    forall w {:trigger SeenFor(styled, legacy, inline, w, fallback, results)} ::
      w == width ==> SeenFor(styled, legacy, inline, w, fallback, results)
  }

  ghost predicate SeenFor(styled: Styled, legacy: seq<seq<Declaration>>, inline: seq<seq<Declaration>>,
                          width: real, fallback: bool, results: map<int, Winners>)
    requires styled.Valid() && |legacy| == |inline| == |styled.tree|
  {
    && (forall n :: n in results <==> IsElement(styled.tree, n) && ScopeOf(styled.tree, n) != InertScope)
    && forall n :: n in results ==>
         0 <= n < |styled.tree| && results[n] == styled.WinnersAt(width, fallback, n, legacy[n], inline[n])
  }

  /** The first `k` cases give the winners at their widths. */
  ghost predicate AllSeen(styled: Styled, legacy: seq<seq<Declaration>>, inline: seq<seq<Declaration>>,
                          widths: seq<real>, k: nat, fallback: bool, results: seq<map<int, Winners>>)
    requires styled.Valid() && |legacy| == |inline| == |styled.tree|
  {
    && |results| == k <= |widths|
    && forall i :: 0 <= i < k ==> SeenAt(styled, legacy, inline, widths[i], fallback, results[i])
  }

  lemma {:induction false} SeenSame(styled: Styled, legacy: seq<seq<Declaration>>, inline: seq<seq<Declaration>>,
                                    width: real, fallback: bool, a: map<int, Winners>, b: map<int, Winners>)
    requires styled.Valid() && |legacy| == |inline| == |styled.tree| && a == b
    requires SeenAt(styled, legacy, inline, width, fallback, a)
    ensures SeenAt(styled, legacy, inline, width, fallback, b)
  {
  }

  lemma {:induction false} AllSeenNext(styled: Styled, legacy: seq<seq<Declaration>>, inline: seq<seq<Declaration>>,
                                       widths: seq<real>, k: nat, fallback: bool,
                                       results: seq<map<int, Winners>>, seen: map<int, Winners>)
    requires styled.Valid() && |legacy| == |inline| == |styled.tree| && k < |widths|
    requires AllSeen(styled, legacy, inline, widths, k, fallback, results)
    requires SeenAt(styled, legacy, inline, widths[k], fallback, seen)
    ensures AllSeen(styled, legacy, inline, widths, k + 1, fallback, results + [seen])
  {
    var more := results + [seen];
    forall i | 0 <= i < k + 1
      ensures SeenAt(styled, legacy, inline, widths[i], fallback, more[i])
    {
      if i < k {
        SeenSame(styled, legacy, inline, widths[i], fallback, results[i], more[i]);
      } else {
        SeenSame(styled, legacy, inline, widths[i], fallback, seen, more[i]);
      }
    }
  }

  /** The kept rules in their shared groups. */
  ghost predicate SharedGroups(styled: Styled, kept: seq<Rule>, chains: seq<int>, groups: seq<int>, chosen: seq<nat>) {
    && styled.Valid() && styled.Chains(kept, chains) && AreFrames(styled.frames, groups) && |chosen| == |kept|
    && forall i :: 0 <= i < |kept| ==> chosen[i] < |groups| && groups[chosen[i]] == chains[i]
  }

  /** A pass over the grouped rules is a pass over the document at that width. */
  lemma {:induction false} PassSeesWidth(styled: Styled, kept: seq<Rule>, chains: seq<int>, groups: seq<int>,
                                         chosen: seq<nat>,
                                         legacy: seq<seq<Declaration>>, inline: seq<seq<Declaration>>,
                                         width: real, fallback: bool, walker: Walker, results: map<int, Winners>)
    requires SharedGroups(styled, kept, chains, groups, chosen) && walker.Fixed() && walker.Agree(results)
    requires walker.sheet.tree == styled.tree && walker.sheet.rules == InGroups(kept, chosen)
    requires walker.states == GroupStates(styled.frames, groups, width, fallback)
    requires walker.legacy == legacy && walker.inline == inline && |legacy| == |inline| == |styled.tree|
    requires forall n :: n in results <==> IsElement(styled.tree, n) && ScopeOf(styled.tree, n) != InertScope
    ensures SeenAt(styled, legacy, inline, width, fallback, results)
  {
    forall n | n in results
      ensures 0 <= n < |styled.tree| && results[n] == styled.WinnersAt(width, fallback, n, legacy[n], inline[n])
    {
      assert walker.Ready(n);
      styled.GroupedWinners(kept, chains, groups, chosen, width, fallback, n, legacy[n], inline[n]);
    }
    assert SeenFor(styled, legacy, inline, width, fallback, results);
  }

  /** Widths with the same states are seen alike. */
  lemma {:induction false} SeenAlike(styled: Styled, kept: seq<Rule>, chains: seq<int>, groups: seq<int>,
                                     chosen: seq<nat>,
                                     legacy: seq<seq<Declaration>>, inline: seq<seq<Declaration>>,
                                     v: real, w: real, fallback: bool, results: map<int, Winners>)
    requires SharedGroups(styled, kept, chains, groups, chosen) && |legacy| == |inline| == |styled.tree|
    requires GroupStates(styled.frames, groups, v, fallback) == GroupStates(styled.frames, groups, w, fallback)
    requires SeenAt(styled, legacy, inline, v, fallback, results)
    ensures SeenAt(styled, legacy, inline, w, fallback, results)
  {
    assert SeenFor(styled, legacy, inline, v, fallback, results);
    forall n | n in results
      ensures results[n] == styled.WinnersAt(w, fallback, n, legacy[n], inline[n])
    {
      styled.GroupedWinners(kept, chains, groups, chosen, v, fallback, n, legacy[n], inline[n]);
      styled.GroupedWinners(kept, chains, groups, chosen, w, fallback, n, legacy[n], inline[n]);
    }
    assert SeenFor(styled, legacy, inline, w, fallback, results);
  }

  /** What an element's style starts from: nothing, where its declarations or the
      sheet's were not all read, or the winners. */
  datatype ElementStyle = Unresolved | Decided(winners: Winners)

  function Styles(results: map<int, Winners>, unread: int -> bool): map<int, ElementStyle> {
    map n | n in results :: if unread(n) then Unresolved else Decided(results[n])
  }

  /** Every element outside inert content, and no other, is unresolved where its own
      declarations are unread and otherwise has the winners at the width. */
  ghost predicate StyledAt(styled: Styled, legacy: seq<seq<Declaration>>, inline: seq<seq<Declaration>>,
                           unread: int -> bool, width: real, styles: map<int, ElementStyle>)
    requires styled.Valid() && |legacy| == |inline| == |styled.tree|
  {
    && (forall n :: n in styles <==> IsElement(styled.tree, n) && ScopeOf(styled.tree, n) != InertScope)
    && forall n :: n in styles ==>
         && 0 <= n < |styled.tree|
         && styles[n] == if unread(n) then Unresolved
                         else Decided(styled.WinnersAt(width, false, n, legacy[n], inline[n]))
  }

  lemma {:induction false} SeenIsStyled(styled: Styled, legacy: seq<seq<Declaration>>, inline: seq<seq<Declaration>>,
                                        unread: int -> bool, width: real, results: map<int, Winners>)
    requires styled.Valid() && |legacy| == |inline| == |styled.tree|
    requires SeenAt(styled, legacy, inline, width, false, results)
    ensures StyledAt(styled, legacy, inline, unread, width, Styles(results, unread))
  {
    assert SeenFor(styled, legacy, inline, width, false, results);
  }

  ghost predicate SomeCaseStyles(styled: Styled, legacy: seq<seq<Declaration>>, inline: seq<seq<Declaration>>,
                                 unread: int -> bool, width: real, styles: seq<map<int, ElementStyle>>)
    requires styled.Valid() && |legacy| == |inline| == |styled.tree|
  {
    exists i :: 0 <= i < |styles| && StyledAt(styled, legacy, inline, unread, width, styles[i])
  }

  /** Elements outside inert content, all unresolved. */
  function AllUnresolved(t: Tree): map<int, ElementStyle>
    requires WellFormed(t)
  {
    map n | 0 <= n < |t| && t[n].element && ScopeOf(t, n) != InertScope :: Unresolved
  }

  /** Evaluate the document once per viewing case, with one index and one set of
      caches. Each case gives the styles of trying every rule at its width, and
      every width up to the largest has a case that gives its styles. A sheet that
      was not all read is seen once, with nothing resolved. */
  method InspectViewings(styled: Styled, legacy: seq<seq<Declaration>>, inline: seq<seq<Declaration>>,
                         incomplete: bool, unread: int -> bool, largest: real, nextAfter: real -> real)
    returns (widths: seq<real>, styles: seq<map<int, ElementStyle>>)
    requires styled.Valid() && AllNumbered(styled.tree, styled.rules, legacy, inline)
    requires largest >= 0.0 && forall x :: x < largest ==> x < nextAfter(x) <= largest
    requires forall f, v :: 0 <= f < |styled.frames| && BoundOf(styled.frames, f, v) ==> v <= largest
    ensures |styles| == |widths| > 0
    ensures incomplete ==> widths == [DEFAULT_WIDTH] && styles == [AllUnresolved(styled.tree)]
    ensures !incomplete ==>
              forall i :: 0 <= i < |widths| ==> StyledAt(styled, legacy, inline, unread, widths[i], styles[i])
    ensures !incomplete ==>
              forall w :: 0.0 <= w <= largest ==> SomeCaseStyles(styled, legacy, inline, unread, w, styles)
  {
    var kept, chains := ChainsOf(styled);
    var runtime := new MediaRuntime(styled.frames, chains);
    var fallback;
    widths, fallback := runtime.ViewingCases(incomplete, largest, nextAfter);
    if incomplete {
      return widths, [AllUnresolved(styled.tree)];
    }
    ghost var groups, chosen := runtime.groups, runtime.mediaGroup;
    var results := ViewAll(styled, kept, chains, runtime, legacy, inline, widths, false);
    styles := seq(|results|, i requires 0 <= i < |results| => Styles(results[i], unread));
    forall i | 0 <= i < |widths|
      ensures StyledAt(styled, legacy, inline, unread, widths[i], styles[i])
    {
      SeenIsStyled(styled, legacy, inline, unread, widths[i], results[i]);
    }
    forall w | 0.0 <= w <= largest
      ensures SomeCaseStyles(styled, legacy, inline, unread, w, styles)
    {
      assert StandIn(styled.frames, groups, widths, w);
      WidthStyled(styled, kept, chains, groups, chosen, legacy, inline, unread, widths, w, results, styles);
    }
  }

  lemma {:induction false} WidthStyled(styled: Styled, kept: seq<Rule>, chains: seq<int>, groups: seq<int>,
                                       chosen: seq<nat>, legacy: seq<seq<Declaration>>,
                                       inline: seq<seq<Declaration>>, unread: int -> bool, widths: seq<real>, w: real,
                                       results: seq<map<int, Winners>>, styles: seq<map<int, ElementStyle>>)
    requires SharedGroups(styled, kept, chains, groups, chosen) && |legacy| == |inline| == |styled.tree|
    requires AllSeen(styled, legacy, inline, widths, |widths|, false, results) && |styles| == |results|
    requires forall i :: 0 <= i < |results| ==> styles[i] == Styles(results[i], unread)
    requires StandIn(styled.frames, groups, widths, w)
    ensures SomeCaseStyles(styled, legacy, inline, unread, w, styles)
  {
    var i :| 0 <= i < |widths| &&
             GroupStates(styled.frames, groups, widths[i], false) == GroupStates(styled.frames, groups, w, false);
    SeenAlike(styled, kept, chains, groups, chosen, legacy, inline, widths[i], w, false, results[i]);
    SeenIsStyled(styled, legacy, inline, unread, w, results[i]);
    assert StyledAt(styled, legacy, inline, unread, w, styles[i]);
  }

  /** The indexed sheet of the grouped rules. */
  method BuildSheet(styled: Styled, kept: seq<Rule>, ghost chains: seq<int>, ghost groups: seq<int>, chosen: seq<nat>,
                    cacheMatches: bool) returns (sheet: Sheet)
    requires SharedGroups(styled, kept, chains, groups, chosen)
    ensures fresh(sheet) && fresh(sheet.active) && fresh(sheet.chains) && sheet.Fixed() && sheet.Caches()
    ensures sheet.tree == styled.tree && sheet.rules == InGroups(kept, chosen)
  {
    GroupedPlanned(styled, kept, chains, groups, chosen);
    NoneDropped(styled.Own(), kept, chosen);
    var rules, index := BuildSelectorIndex(InGroups(kept, chosen));
    sheet := new Sheet(styled.tree, rules, index, cacheMatches);
  }

  /** One viewing case. */
  method View(styled: Styled, kept: seq<Rule>, ghost chains: seq<int>, ghost groups: seq<int>, chosen: seq<nat>,
              sheet: Sheet,
              legacy: seq<seq<Declaration>>, inline: seq<seq<Declaration>>, states: seq<MediaState>,
              width: real, fallback: bool) returns (results: map<int, Winners>)
    requires SharedGroups(styled, kept, chains, groups, chosen) && sheet.Fixed() && sheet.Caches()
    requires sheet.tree == styled.tree && sheet.rules == InGroups(kept, chosen)
    requires AllNumbered(styled.tree, sheet.rules, legacy, inline)
    requires states == GroupStates(styled.frames, groups, width, fallback)
    modifies sheet, sheet.active, sheet.chains
    ensures sheet.Caches() && SeenAt(styled, legacy, inline, width, fallback, results)
  {
    GroupedReady(styled, kept, chains, groups, chosen, width, fallback);
    var walker := new Walker(sheet, legacy, inline, states);
    results := walker.Run();
    PassSeesWidth(styled, kept, chains, groups, chosen, legacy, inline, width, fallback, walker, results);
  }

  /** One pass per width over one sheet. */
  method ViewAll(styled: Styled, kept: seq<Rule>, ghost chains: seq<int>, runtime: MediaRuntime,
                 legacy: seq<seq<Declaration>>, inline: seq<seq<Declaration>>, widths: seq<real>, fallback: bool)
    returns (results: seq<map<int, Winners>>)
    requires runtime.Valid() && runtime.Prepared() && runtime.frames == styled.frames
    requires SharedGroups(styled, kept, chains, runtime.groups, runtime.mediaGroup)
    requires AllNumbered(styled.tree, styled.rules, legacy, inline)
    modifies runtime
    ensures AllSeen(styled, legacy, inline, widths, |widths|, fallback, results)
  {
    var groups, chosen := runtime.groups, runtime.mediaGroup;
    KeptAllNumbered(styled.tree, styled.rules, styled.Own(), kept, chosen, legacy, inline);
    var sheet := BuildSheet(styled, kept, chains, groups, chosen, |widths| > 1);
    results := [];
    for i := 0 to |widths|
      invariant runtime.Valid() && runtime.groups == groups && runtime.mediaGroup == chosen
      invariant sheet.Caches()
      invariant AllSeen(styled, legacy, inline, widths, i, fallback, results)
    {
      var states := runtime.MediaStates(widths[i], fallback);
      var seen := View(styled, kept, chains, groups, chosen, sheet, legacy, inline, states, widths[i], fallback);
      AllSeenNext(styled, legacy, inline, widths, i, fallback, results, seen);
      results := results + [seen];
    }
  }

  lemma {:induction false} GroupedPlanned(styled: Styled, kept: seq<Rule>, chains: seq<int>, groups: seq<int>,
                                          chosen: seq<nat>)
    requires SharedGroups(styled, kept, chains, groups, chosen)
    ensures Planned(InGroups(kept, chosen))
  {
    SamePlanned(styled.rules, styled.Own());
    Inspection.KeptPlanned(styled.Own());
    SamePlanned(kept, InGroups(kept, chosen));
  }

  lemma {:induction false} GroupedReady(styled: Styled, kept: seq<Rule>, chains: seq<int>, groups: seq<int>,
                                        chosen: seq<nat>,
                                        width: real, fallback: bool)
    requires SharedGroups(styled, kept, chains, groups, chosen)
    ensures Grouped(InGroups(kept, chosen), GroupStates(styled.frames, groups, width, fallback))
  {
  }
}
