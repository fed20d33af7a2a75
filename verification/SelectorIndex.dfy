/** The seven kinds of bucket that rules are filed in. */
module SelectorIndex {
  import opened SelectorKeys
  import opened ActiveAncestors
  import opened Stylesheets

  /** `buckets` holds the universal list and the six keyed tables; `caches` gives
      each chain plan its slot in `chains`. */
  datatype Index = Index(buckets: map<Key, Bucket>, count: nat, caches: map<nat, nat>,
                         chains: seq<AncestorChains.Plan>) {
    /** A table lookup: absent keys give the empty bucket. */
    function Lookup(k: Key): Bucket {
      if k in buckets then buckets[k] else []
    }

    predicate HasKind(kind: KeyKind) {
      exists k :: k in buckets && k.kind == kind
    }

    predicate HasAncestorKinds() {
      HasKind(AncestorTag) || HasKind(AncestorId) || HasKind(AncestorClass)
    }
  }

  /** The references filed under a key, in the order given. */
  function Filed(rules: seq<Rule>, refs: seq<Ref>, k: Key): seq<Ref>
    requires forall r :: r in refs ==> Names(rules, r)
  {
    if refs == [] then []
    else
      var rest, last := Filed(rules, refs[..|refs| - 1], k), refs[|refs| - 1];
      if BranchOf(rules, last).key == k then rest + [last] else rest
  }

  ghost predicate BucketsFiled(buckets: map<Key, Bucket>, rules: seq<Rule>, refs: seq<Ref>)
    requires forall r :: r in refs ==> Names(rules, r)
  {
    && (forall k :: k in buckets <==> Filed(rules, refs, k) != [])
    && (forall k :: k in buckets ==> buckets[k] == Filed(rules, refs, k))
  }

  /** Every chain plan has its own slot in `chains`. */
  ghost predicate ChainsCached(caches: map<nat, nat>, chains: seq<AncestorChains.Plan>, rules: seq<Rule>,
                               refs: seq<Ref>)
    requires forall r :: r in refs ==> Names(rules, r)
  {
    && (forall r :: r in refs && BranchOf(rules, r).chain != [] ==>
          && r.sequence in caches && caches[r.sequence] < |chains|
          && chains[caches[r.sequence]] == AncestorChains.Plan(BranchOf(rules, r).chain, BranchOf(rules, r).selector))
    && (forall p :: 0 <= p < |chains| ==> chains[p].Planned())
  }

  /** The index holds exactly the filing of `refs`. */
  ghost predicate Indexes(index: Index, rules: seq<Rule>, refs: seq<Ref>)
    requires forall r :: r in refs ==> Names(rules, r)
  {
    && BucketsFiled(index.buckets, rules, refs)
    && (forall r :: r in refs ==> r.sequence < index.count)
    && ChainsCached(index.caches, index.chains, rules, refs)
  }

  /** Rules without declarations cannot affect presentation. */
  function Kept(rules: seq<Rule>): (kept: seq<Rule>)
    ensures forall r :: r in kept <==> r in rules && r.decls != []
  {
    if rules == [] then []
    else
      var rest, last := Kept(rules[..|rules| - 1]), rules[|rules| - 1];
      assert forall r :: r in rules <==> r in rules[..|rules| - 1] || r == last;
      if last.decls != [] then rest + [last] else rest
  }

  method BuildSelectorIndex(original: seq<Rule>) returns (rules: seq<Rule>, index: Index)
    requires Planned(Kept(original))
    ensures rules == Kept(original)
    ensures forall r :: r in AllRefs(rules, |rules|) ==> Names(rules, r)
    ensures Indexes(index, rules, AllRefs(rules, |rules|))
  {
    rules := KeepRules(original);
    index := Index(map[], 0, map[], []);
    for i := 0 to |rules|
      invariant forall r :: r in AllRefs(rules, i) ==> Names(rules, r)
      invariant Indexes(index, rules, AllRefs(rules, i))
    {
      RefsBeforeNames(rules, i, 0);
      index := FileRule(rules, i, index);
      RefsBeforeNames(rules, i, |rules[i].plans|);
    }
  }

  method KeepRules(original: seq<Rule>) returns (rules: seq<Rule>)
    ensures rules == Kept(original)
  {
    rules := [];
    for i := 0 to |original|
      invariant rules == Kept(original[..i])
    {
      assert original[..i + 1][..i] == original[..i];
      if original[i].decls != [] {
        rules := rules + [original[i]];
      }
    }
    assert original[..|original|] == original;
  }

  /** All branches before branch `j` of rule `i`. */
  ghost function RefsBefore(rules: seq<Rule>, i: nat, j: nat): seq<Ref>
    requires i < |rules| && j <= |rules[i].plans|
  {
    AllRefs(rules, i) + RuleRefs(rules, i, j)
  }

  lemma {:induction false} RefsBeforeNames(rules: seq<Rule>, i: nat, j: nat)
    requires i < |rules| && j <= |rules[i].plans|
    ensures forall r :: r in RefsBefore(rules, i, j) ==> Names(rules, r) && (r.rule < i || r.branch < j)
    ensures j < |rules[i].plans| ==>
              RefsBefore(rules, i, j + 1) == RefsBefore(rules, i, j) + [Ref(i, j, rules[i].plans[j].sequence)]
    ensures RefsBefore(rules, i, 0) == AllRefs(rules, i)
    ensures RefsBefore(rules, i, |rules[i].plans|) == AllRefs(rules, i + 1)
  {
    AllRefsNames(rules, i);
    RuleRefsNames(rules, i, j);
  }

  ghost predicate IndexesBefore(index: Index, rules: seq<Rule>, i: nat, j: nat) {
    && i < |rules| && j <= |rules[i].plans|
    && (forall r :: r in RefsBefore(rules, i, j) ==> Names(rules, r))
    && Indexes(index, rules, RefsBefore(rules, i, j))
  }

  method FileRule(rules: seq<Rule>, i: nat, before: Index) returns (index: Index)
    requires Planned(rules) && IndexesBefore(before, rules, i, 0)
    ensures IndexesBefore(index, rules, i, |rules[i].plans|)
  {
    index := before;
    for j := 0 to |rules[i].plans|
      invariant IndexesBefore(index, rules, i, j)
    {
      RefsBeforeNames(rules, i, j);
      RefsBeforeNames(rules, i, j + 1);
      index := File(rules, RefsBefore(rules, i, j), index, Ref(i, j, rules[i].plans[j].sequence));
    }
  }

  /** File one branch: extend its bucket and give a chain plan a cache slot. */
  method File(rules: seq<Rule>, ghost refs: seq<Ref>, index: Index, ref: Ref) returns (r: Index)
    requires Planned(rules) && Names(rules, ref) && ref !in refs
    requires forall x :: x in refs ==> Names(rules, x)
    requires Indexes(index, rules, refs)
    ensures Indexes(r, rules, refs + [ref])
  {
    var plan := BranchOf(rules, ref);
    var count := if index.count > plan.sequence + 1 then index.count else plan.sequence + 1;
    var caches, chains := index.caches, index.chains;
    if plan.chain != [] {
      caches := caches[plan.sequence := |chains|];
      chains := chains + [AncestorChains.Plan(plan.chain, plan.selector)];
    }
    ChainFiled(index, rules, refs, ref, caches, chains);
    BucketFiled(index, rules, refs, ref);
    r := Index(index.buckets[plan.key := index.Lookup(plan.key) + [ref]], count, caches, chains);
  }

  lemma {:induction false} BucketFiled(index: Index, rules: seq<Rule>, refs: seq<Ref>, ref: Ref)
    requires (forall x :: x in refs ==> Names(rules, x)) && Names(rules, ref)
    requires BucketsFiled(index.buckets, rules, refs)
    ensures var k := BranchOf(rules, ref).key;
            BucketsFiled(index.buckets[k := index.Lookup(k) + [ref]], rules, refs + [ref])
  {
    assert (refs + [ref])[..|refs|] == refs;
  }

  lemma {:induction false} ChainFiled(index: Index, rules: seq<Rule>, refs: seq<Ref>, ref: Ref, caches: map<nat, nat>,
                                      chains: seq<AncestorChains.Plan>)
    requires Planned(rules) && (forall x :: x in refs ==> Names(rules, x)) && Names(rules, ref) && ref !in refs
    requires ChainsCached(index.caches, index.chains, rules, refs)
    requires var plan := BranchOf(rules, ref);
             if plan.chain == [] then caches == index.caches && chains == index.chains
             else && caches == index.caches[plan.sequence := |index.chains|]
                  && chains == index.chains + [AncestorChains.Plan(plan.chain, plan.selector)]
    ensures ChainsCached(caches, chains, rules, refs + [ref])
  {
    forall x | x in refs + [ref] && BranchOf(rules, x).chain != []
      ensures x.sequence in caches && caches[x.sequence] < |chains|
      ensures chains[caches[x.sequence]] == AncestorChains.Plan(BranchOf(rules, x).chain, BranchOf(rules, x).selector)
    {
      assert x != ref ==> x in refs && x.sequence != ref.sequence;
    }
    assert BranchPlanned(rules[ref.rule].plans[ref.branch]);
  }

  /* What later stages use. */

  lemma {:induction false} FiledMembers(rules: seq<Rule>, refs: seq<Ref>, k: Key)
    requires forall r :: r in refs ==> Names(rules, r)
    ensures forall r :: r in Filed(rules, refs, k) <==> r in refs && BranchOf(rules, r).key == k
  {
    if refs != [] {
      var rest, last := refs[..|refs| - 1], refs[|refs| - 1];
      FiledMembers(rules, rest, k);
      assert forall r :: r in refs <==> r in rest || r == last;
    }
  }

  /** The whole sheet is indexed. */
  ghost predicate Complete(index: Index, rules: seq<Rule>) {
    && Planned(rules)
    && (forall r :: r in AllRefs(rules, |rules|) ==> Names(rules, r))
    && Indexes(index, rules, AllRefs(rules, |rules|))
  }

  /** A reference is in the bucket of its own key and in no other. */
  lemma {:induction false} BucketMembers(index: Index, rules: seq<Rule>, k: Key, r: Ref)
    requires Complete(index, rules)
    ensures r in index.Lookup(k) <==> Names(rules, r) && BranchOf(rules, r).key == k
  {
    AllRefsNames(rules, |rules|);
    FiledMembers(rules, AllRefs(rules, |rules|), k);
  }

  /** The first reference identifies its bucket. */
  lemma {:induction false} IdentityFixesKey(index: Index, rules: seq<Rule>, k: Key, l: Key)
    requires Complete(index, rules)
    requires index.Lookup(k) != [] && index.Lookup(l) != []
    requires Identity(index.Lookup(k)) == Identity(index.Lookup(l))
    ensures k == l
  {
    BucketMembers(index, rules, k, index.Lookup(k)[0]);
    BucketMembers(index, rules, l, index.Lookup(l)[0]);
  }

  lemma {:induction false} IdentityBelowCount(index: Index, rules: seq<Rule>, k: Key)
    requires Complete(index, rules) && index.Lookup(k) != []
    ensures Identity(index.Lookup(k)) < index.count
  {
    BucketMembers(index, rules, k, index.Lookup(k)[0]);
    AllRefsNames(rules, |rules|);
  }
}
