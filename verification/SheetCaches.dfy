/** Evaluation of one element against an indexed stylesheet, with its caches. */
module SheetCaches {
  import opened Documents
  import opened Selectors
  import opened SelectorKeys
  import opened ActiveAncestors
  import opened AncestorChains
  import opened Cascade
  import opened Media
  import opened Stylesheets
  import opened SelectorIndex
  import opened Gathering
  import opened AttributeBuckets
  import opened Candidates

  const MAX_MATCH_CACHE_ENTRIES := 65_536

  /** How many results the tables hold together. */
  ghost function Entries(caches: seq<map<int, bool>>): nat {
    if caches == [] then 0 else |caches[0]| + Entries(caches[1..])
  }

  lemma {:induction false} NoEntries(caches: seq<map<int, bool>>)
    requires forall i :: 0 <= i < |caches| ==> caches[i] == map[]
    ensures Entries(caches) == 0
  {
    if caches != [] {
      NoEntries(caches[1..]);
    }
  }

  lemma {:induction false} EntriesUpdated(caches: seq<map<int, bool>>, i: nat, n: int, matched: bool)
    requires i < |caches|
    ensures Entries(caches[i := caches[i][n := matched]]) == Entries(caches) + if n in caches[i] then 0 else 1
  {
    var updated := caches[i := caches[i][n := matched]];
    if i == 0 {
      assert updated[1..] == caches[1..];
      assert caches[0][n := matched].Keys == caches[0].Keys + {n};
    } else {
      assert updated[1..] == caches[1..][i - 1 := caches[1..][i - 1][n := matched]];
      EntriesUpdated(caches[1..], i - 1, n, matched);
    }
  }

  class Sheet {
    const tree: Tree
    const rules: seq<Rule>
    const index: Index
    const active: ActiveBuckets
    const chains: ChainMatcher
    var attributeMarks: Marks
    var candidateMarks: Marks
    var attributeCandidates: map<int, AttributeCandidates>
    /** Per sequence number, match results by node; empty until first admission. */
    var matchCaches: seq<map<int, bool>>
    var matchCacheEntries: nat
    const cacheMatches: bool

    /** What is fixed for the life of the sheet. */
    ghost predicate Fixed() {
      Parsed(tree) && Complete(index, rules) && chains.tree == tree && chains.plans == index.chains
    }

    ghost predicate Caches()
      reads this, chains
    {
      && chains.Valid() && attributeMarks.Valid() && candidateMarks.Valid()
      && AttributesExact() && MatchesExact()
    }

    ghost predicate AttributesExact()
      reads this
    {
      forall n :: n in attributeCandidates ==>
                    IsElement(tree, n) && AttributeListing(index, tree[n].attrs, attributeCandidates[n])
    }

    /** Every cached result is the true one, and the tables stay bounded. */
    ghost predicate MatchesExact()
      reads this
    {
      && WellFormed(tree) && Planned(rules)
      && Entries(matchCaches) == matchCacheEntries <= MAX_MATCH_CACHE_ENTRIES
      && (|matchCaches| == 0 || |matchCaches| == index.count)
      && forall r, n :: Names(rules, r) && r.sequence < |matchCaches| && n in matchCaches[r.sequence] ==>
                          matchCaches[r.sequence][n] == MatchesRef(r, n)
    }

    predicate MatchesRef(r: Ref, n: int)
      requires WellFormed(tree) && Planned(rules) && Names(rules, r)
    {
      BranchPlanned(BranchOf(rules, r)) && Matches(tree, BranchOf(rules, r).selector, n)
    }

    constructor (tree: Tree, rules: seq<Rule>, index: Index, cacheMatches: bool)
      requires Parsed(tree) && Complete(index, rules)
      ensures Fixed() && Caches() && fresh(active) && fresh(chains)
      ensures this.tree == tree && this.rules == rules && this.index == index && this.cacheMatches == cacheMatches
    {
      this.tree, this.rules, this.index, this.cacheMatches := tree, rules, index, cacheMatches;
      active := new ActiveBuckets();
      chains := new ChainMatcher(tree, index.chains);
      attributeMarks, candidateMarks := Marks([], 0), Marks([], 0);
      attributeCandidates, matchCaches, matchCacheEntries := map[], [], 0;
    }

    /** The element's attribute buckets, computed once per node where that pays. */
    method AttributeCandidateBuckets(n: int) returns (c: AttributeCandidates)
      requires Fixed() && Caches() && IsElement(tree, n)
      modifies this
      ensures Caches() && AttributeListing(index, tree[n].attrs, c)
    {
      if tree[n].attrs == [] || (!NeedsId(index) && !NeedsClass(index)) {
        NothingSelected(index, tree[n].attrs);
        return AttributeCandidates([], []);
      }
      if n in attributeCandidates {
        return attributeCandidates[n];
      }
      c, attributeMarks := SelectBuckets(index, rules, tree[n].attrs, attributeMarks);
      if c != AttributeCandidates([], []) || cacheMatches || index.HasAncestorKinds() {
        attributeCandidates := attributeCandidates[n := c];
      }
    }

    method CacheMatch(r: Ref, n: int, matched: bool)
      requires Fixed() && Caches() && Names(rules, r) && matched == MatchesRef(r, n)
      modifies this
      ensures Caches()
    {
      if !cacheMatches {
        return;
      }
      var known := r.sequence < |matchCaches| && n in matchCaches[r.sequence];
      if !known && matchCacheEntries >= MAX_MATCH_CACHE_ENTRIES {
        return;
      }
      var admitted: bool := *;
      if admitted {
        SequenceBelowCount(r);
        if |matchCaches| == 0 {
          matchCaches := seq(index.count, _ => map[]);
          NoEntries(matchCaches);
        }
        EntriesUpdated(matchCaches, r.sequence, n, matched);
        UpdatedMatches(r, n, matched);
        matchCaches := matchCaches[r.sequence := matchCaches[r.sequence][n := matched]];
        if !known {
          matchCacheEntries := matchCacheEntries + 1;
        }
      }
    }

    lemma {:induction false} SequenceBelowCount(r: Ref)
      requires Complete(index, rules) && Names(rules, r)
      ensures r.sequence < index.count
    {
      AllRefsNames(rules, |rules|);
    }

    lemma {:induction false} UpdatedMatches(r: Ref, n: int, matched: bool)
      requires MatchesExact() && Names(rules, r) && r.sequence < |matchCaches| && matched == MatchesRef(r, n)
      ensures forall u, x ::
                Names(rules, u) && u.sequence < |matchCaches| &&
                    x in matchCaches[r.sequence := matchCaches[r.sequence][n := matched]][u.sequence] ==>
                  matchCaches[r.sequence := matchCaches[r.sequence][n := matched]][u.sequence][x] == MatchesRef(u, x)
    {
    }

    /** Does branch `r` match element `n`? */
    method MatchBranch(r: Ref, n: int) returns (matched: bool)
      requires Fixed() && Caches() && Names(rules, r) && IsElement(tree, n)
      modifies this, chains
      ensures Caches() && matched == MatchesRef(r, n)
    {
      var plan := BranchOf(rules, r);
      assert BranchPlanned(rules[r.rule].plans[r.branch]);
      if cacheMatches && r.sequence < |matchCaches| && n in matchCaches[r.sequence] {
        return matchCaches[r.sequence][n];
      }
      if plan.chain != [] {
        CachedChain(r);
        var complete;
        matched, complete := chains.MatchAncestorChain(index.caches[r.sequence], n);
      } else {
        matched := Matches(tree, plan.selector, n);
      }
      CacheMatch(r, n, matched);
    }

    lemma {:induction false} CachedChain(r: Ref)
      requires Complete(index, rules) && Names(rules, r) && BranchOf(rules, r).chain != []
      ensures r.sequence in index.caches && index.caches[r.sequence] < |index.chains|
      ensures index.chains[index.caches[r.sequence]].complexity == BranchOf(rules, r).selector
    {
      AllRefsNames(rules, |rules|);
    }

    /** Winners among the candidates, decided in discovery order. */
    method CollectCascade(n: int, refs: seq<Ref>, legacy: seq<Declaration>, inline: seq<Declaration>,
                          states: seq<MediaState>)
      returns (w: Winners)
      requires Fixed() && Caches() && IsElement(tree, n) && Grouped(rules, states)
      requires forall r :: r in refs ==> Names(rules, r)
      modifies this, chains
      ensures Caches()
      ensures w == TakeAll(NOTHING, ScanOffers(tree, rules, states, n, refs, legacy, inline))
    {
      w := Apply(legacy, n, LEGACY, NOTHING);
      w := ScanRefs(n, refs, states, w);
      w := Apply(inline, n, INLINE, w);
      ghost var ls, rs := ListOffers(legacy, n, LEGACY), RefsOffers(tree, rules, states, n, refs);
      TakeAllConcat(NOTHING, ls, rs);
      TakeAllConcat(NOTHING, ls + rs, ListOffers(inline, n, INLINE));
    }

    /** The candidates one after another. */
    method ScanRefs(n: int, refs: seq<Ref>, states: seq<MediaState>, before: Winners) returns (w: Winners)
      requires Fixed() && Caches() && IsElement(tree, n) && Grouped(rules, states)
      requires forall r :: r in refs ==> Names(rules, r)
      modifies this, chains
      ensures Caches()
      ensures w == TakeAll(before, RefsOffers(tree, rules, states, n, refs))
    {
      w := before;
      for i := 0 to |refs|
        invariant Caches()
        invariant w == TakeAll(before, RefsOffers(tree, rules, states, n, refs[..i]))
      {
        var r := refs[i];
        assert refs[..i + 1][..i] == refs[..i];
        TakeAllConcat(before, RefsOffers(tree, rules, states, n, refs[..i]), RefOffers(tree, rules, states, n, r));
        w := ScanRef(n, r, states, w);
      }
      assert refs[..|refs|] == refs;
    }

    /** One candidate: skip it, or match it and apply its rule's declarations. */
    method ScanRef(n: int, r: Ref, states: seq<MediaState>, before: Winners) returns (w: Winners)
      requires Fixed() && Caches() && IsElement(tree, n) && Grouped(rules, states) && Names(rules, r)
      modifies this, chains
      ensures Caches()
      ensures w == TakeAll(before, RefOffers(tree, rules, states, n, r))
    {
      var rule, plan := rules[r.rule], BranchOf(rules, r);
      var state := states[rule.mediaGroup];
      w := before;
      if state == No {
        return;
      }
      assert BranchPlanned(rules[r.rule].plans[r.branch]);
      var matched := MatchBranch(r, n);
      if matched {
        if state == AlternateColourScheme {
          w := Apply(rule.decls, n, Source(plan.specificity, false, false, true, false), w);
        } else if rule.uncertainOrigin {
          w := Apply(rule.decls, n, Source(plan.specificity, false, true, state == YesColourScheme, true), w);
        } else {
          w := Apply(rule.decls, n, Source(plan.specificity, false, state == Unknown, state == YesColourScheme, true),
                     w);
        }
      }
    }

    /** The winners at an element whose ancestors' buckets are active: the same
        as trying every branch of every rule in source order. */
    method ElementWinners(n: int, legacy: seq<Declaration>, inline: seq<Declaration>, states: seq<MediaState>)
      returns (w: Winners)
      requires Fixed() && Caches() && IsElement(tree, n) && Grouped(rules, states) && Numbered(rules, legacy, inline)
      requires index.HasAncestorKinds() ==> Lists(index, PathKeys(tree, n), active.buckets)
      modifies this, chains
      ensures Caches()
      ensures w == TryEverything(tree, rules, states, n, legacy, inline)
    {
      var refs := CandidateRefs(n);
      CandidatesComplete(tree, rules, n, refs);
      ScanEqualsTryEverything(tree, rules, states, n, refs, legacy, inline);
      if refs == [] && legacy == [] && inline == [] {
        return NOTHING;
      }
      w := CollectCascade(n, refs, legacy, inline, states);
    }

    /** The candidates of an element whose ancestors' buckets are active. */
    method CandidateRefs(n: int) returns (refs: seq<Ref>)
      requires Fixed() && Caches() && IsElement(tree, n)
      requires index.HasAncestorKinds() ==> Lists(index, PathKeys(tree, n), active.buckets)
      modifies this
      ensures Caches() && CandidatesOf(tree, rules, n, refs)
    {
      var attributes := AttributeCandidates([], []);
      if index.HasKind(IdKey) || index.HasKind(ClassKey) {
        attributes := AttributeCandidateBuckets(n);
      }
      refs, candidateMarks := CollectCandidates(tree, index, rules, n, candidateMarks, attributes, active.buckets);
    }
  }
}
