/** The candidate branches of an element: the union of the buckets its keys and
    its ancestors' keys select. */
module Candidates {
  import opened Documents
  import opened Selectors
  import opened SelectorKeys
  import opened ActiveAncestors
  import opened Stylesheets
  import opened SelectorIndex
  import opened Gathering
  import opened AttributeBuckets

  /** The ancestor keys one element supplies to its descendants. */
  function SuppliedKeys(t: Tree, a: int): set<Key>
    requires IsElement(t, a)
  {
    {Key(AncestorTag, IndexTag(t[a]))} + AncestorForms(DirectKeys(t[a].attrs))
  }

  /** The ancestor keys supplied by the proper ancestors of `n`. */
  function PathKeys(t: Tree, n: int): set<Key>
    requires WellFormed(t) && 0 <= n < |t|
    decreases n
  {
    var p := ElementParent(t, n);
    if p < 0 then {} else SuppliedKeys(t, p) + PathKeys(t, p)
  }

  /** Every key under which a branch matching `n` can be filed. */
  function CandidateKeys(t: Tree, n: int): set<Key>
    requires WellFormed(t) && IsElement(t, n)
  {
    {UNIVERSAL, Key(TagKey, IndexTag(t[n]))} + DirectKeys(t[n].attrs) + PathKeys(t, n)
  }

  lemma {:induction false} SuppliedKeysMean(t: Tree, a: int, k: Key)
    requires IsElement(t, a)
    ensures k in SuppliedKeys(t, a) <==> IsAncestorKind(k.kind) && Supplies(t, a, LocalForm(k))
  {
    forall l { DirectKeysSupplied(t, a, l); }
    AncestorFormInverse(k, DirectKeys(t[a].attrs));
  }

  lemma {:induction false} PathKeysMean(t: Tree, n: int, k: Key)
    requires WellFormed(t) && 0 <= n < |t|
    ensures k in PathKeys(t, n) <==> IsAncestorKind(k.kind) && exists a ::
              Above(t, a, n) && Supplies(t, a, LocalForm(k))
    decreases n
  {
    var p := ElementParent(t, n);
    if p >= 0 {
      SuppliedKeysMean(t, p, k);
      PathKeysMean(t, p, k);
      assert Above(t, p, n);
      forall a | Above(t, a, p)
        ensures Above(t, a, n)
      {
      }
    }
  }

  lemma {:induction false} CandidateKeysMean(t: Tree, n: int, k: Key)
    requires WellFormed(t) && IsElement(t, n) && (k.kind == Universal ==> k == UNIVERSAL)
    ensures k in CandidateKeys(t, n) <==> Eligible(t, n, k)
  {
    DirectKeysSupplied(t, n, k);
    PathKeysMean(t, n, k);
  }

  /** Keys of empty buckets are immaterial. */
  lemma {:induction false} Immaterial(index: Index, keys: set<Key>, more: set<Key>, m: Marks, refs: seq<Ref>)
    requires Marked(index, keys, m) && RefersTo(index, keys, refs)
    requires forall k :: k in more && k !in keys ==> index.Lookup(k) == []
    ensures Marked(index, keys + more, m) && RefersTo(index, keys + more, refs)
    decreases more
  {
    if more == {} {
      assert keys + more == keys;
    } else {
      var k :| k in more;
      RefersSame(index, keys, refs, k);
      if k in keys {
        assert keys + {k} == keys;
      } else {
        MarkedStep(index, keys, m, k);
      }
      Immaterial(index, keys + {k}, more - {k}, m, refs);
      assert (keys + {k}) + (more - {k}) == keys + more;
    }
  }

  /** One of the listed keys for each bucket. */
  ghost function Picked(index: Index, listed: set<Key>, buckets: seq<Bucket>): (picked: seq<Key>)
    requires Lists(index, listed, buckets)
    ensures |picked| == |buckets|
    ensures forall j :: 0 <= j < |buckets| ==> picked[j] in listed && index.Lookup(picked[j]) == buckets[j]
  {
    assert forall j :: 0 <= j < |buckets| ==> buckets[j] in buckets && BucketOf(index, listed, buckets[j]);
    seq(|buckets|, j requires 0 <= j < |buckets| => var k :| k in listed && index.Lookup(k) == buckets[j]; k)
  }

  /** Append a list of buckets, skipping any that was taken before. */
  method AppendAll(index: Index, ghost rules: seq<Rule>, ghost keys: set<Key>, ghost listed: set<Key>,
                   buckets: seq<Bucket>, m: Marks, refs: seq<Ref>)
    returns (m': Marks, refs': seq<Ref>)
    requires Complete(index, rules) && Lists(index, listed, buckets)
    requires Marked(index, keys, m) && RefersTo(index, keys, refs)
    ensures Marked(index, keys + listed, m') && RefersTo(index, keys + listed, refs')
  {
    m', refs' := m, refs;
    ghost var taken, picked := keys, Picked(index, listed, buckets);
    for i := 0 to |buckets|
      invariant keys <= taken <= keys + listed && forall j :: 0 <= j < i ==> picked[j] in taken
      invariant Marked(index, taken, m') && RefersTo(index, taken, refs')
    {
      m', refs' := AppendReferences(index, rules, taken, picked[i], buckets[i], m', refs');
      taken := taken + {picked[i]};
    }
    AllTaken(index, rules, listed, buckets, taken, picked);
    Immaterial(index, taken, listed, m', refs');
    assert taken + listed == keys + listed;
  }

  lemma {:induction false} AllTaken(index: Index, rules: seq<Rule>, listed: set<Key>, buckets: seq<Bucket>,
                                    taken: set<Key>, picked: seq<Key>)
    requires Complete(index, rules) && Lists(index, listed, buckets) && |picked| == |buckets|
    requires forall j :: 0 <= j < |buckets| ==> picked[j] in taken && index.Lookup(picked[j]) == buckets[j]
    ensures forall k :: k in listed && k !in taken ==> index.Lookup(k) == []
  {
    forall k | k in listed && index.Lookup(k) != []
      ensures k in taken
    {
      assert BucketOf(index, listed, index.Lookup(k));
      var j :| 0 <= j < |buckets| && buckets[j] == index.Lookup(k);
      IdentityFixesKey(index, rules, k, picked[j]);
    }
  }

  lemma {:induction false} NothingTaken(index: Index)
    ensures RefersTo(index, {}, [])
  {
  }

  /** `refs` are exactly the branches eligible at `n`, each once. */
  ghost predicate CandidatesOf(t: Tree, rules: seq<Rule>, n: int, refs: seq<Ref>)
    requires WellFormed(t) && 0 <= n < |t|
  {
    && (forall r :: r in refs <==> Names(rules, r) && Eligible(t, n, BranchOf(rules, r).key))
    && Distinct(refs)
  }

  lemma {:induction false} EligibleIsCandidate(t: Tree, index: Index, rules: seq<Rule>, n: int, r: Ref)
    requires WellFormed(t) && IsElement(t, n) && Complete(index, rules)
    ensures RefOf(index, CandidateKeys(t, n), r) <==> Names(rules, r) && Eligible(t, n, BranchOf(rules, r).key)
  {
    var keys := CandidateKeys(t, n);
    if RefOf(index, keys, r) {
      var k :| k in keys && r in index.Lookup(k);
      BucketMembers(index, rules, k, r);
    }
    if Names(rules, r) {
      var k := BranchOf(rules, r).key;
      assert BranchPlanned(rules[r.rule].plans[r.branch]);
      CandidateKeysMean(t, n, k);
      BucketMembers(index, rules, k, r);
    }
  }

  lemma {:induction false} RefersToCandidates(t: Tree, index: Index, rules: seq<Rule>, n: int, refs: seq<Ref>)
    requires WellFormed(t) && IsElement(t, n) && Complete(index, rules)
    requires RefersTo(index, CandidateKeys(t, n), refs)
    ensures CandidatesOf(t, rules, n, refs)
  {
    forall r
      ensures r in refs <==> Names(rules, r) && Eligible(t, n, BranchOf(rules, r).key)
    {
      EligibleIsCandidate(t, index, rules, n, r);
    }
  }

  /** No candidate is missed: every matching branch is among them. */
  lemma {:induction false} CandidatesComplete(t: Tree, rules: seq<Rule>, n: int, refs: seq<Ref>)
    requires Parsed(t) && IsElement(t, n) && Planned(rules) && CandidatesOf(t, rules, n, refs)
    ensures forall r :: Names(rules, r) && Matches(t, BranchOf(rules, r).selector, n) ==> r in refs
  {
    forall r | Names(rules, r) && Matches(t, BranchOf(rules, r).selector, n)
      ensures r in refs
    {
      assert BranchPlanned(rules[r.rule].plans[r.branch]);
      MatchIsEligible(t, BranchOf(rules, r).selector, n);
    }
  }

  /** The union of the selected buckets. `attributes` is consulted only when the
      index holds id or class buckets, and `active` only when it holds ancestor ones. */
  method CollectCandidates(t: Tree, index: Index, ghost rules: seq<Rule>, n: int, marks: Marks,
                           attributes: AttributeCandidates, active: seq<Bucket>)
    returns (refs: seq<Ref>, m: Marks)
    requires WellFormed(t) && IsElement(t, n) && Complete(index, rules) && marks.Valid()
    requires index.HasKind(IdKey) || index.HasKind(ClassKey) ==> AttributeListing(index, t[n].attrs, attributes)
    requires index.HasAncestorKinds() ==> Lists(index, PathKeys(t, n), active)
    ensures m.Valid() && CandidatesOf(t, rules, n, refs)
  {
    if index.count == 0 {
      NoCandidates(t, index, rules, n);
      return [], marks;
    }
    m := marks.Begin(index.count);
    FreshMarks(index, marks);
    refs := [];
    NothingTaken(index);
    ghost var keys: set<Key> := {};
    m, refs := AppendReferences(index, rules, keys, UNIVERSAL, index.Lookup(UNIVERSAL), m, refs);
    keys := keys + {UNIVERSAL};
    var tag := Key(TagKey, IndexTag(t[n]));
    m, refs := AppendReferences(index, rules, keys, tag, index.Lookup(tag), m, refs);
    keys := keys + {tag};
    ghost var direct := DirectKeys(t[n].attrs);
    if index.HasKind(IdKey) || index.HasKind(ClassKey) {
      m, refs := AppendAll(index, rules, keys, direct, attributes.direct, m, refs);
    } else {
      NoSuchKinds(t, index, n);
      Immaterial(index, keys, direct, m, refs);
    }
    keys := keys + direct;
    if index.HasAncestorKinds() {
      m, refs := AppendAll(index, rules, keys, PathKeys(t, n), active, m, refs);
    } else {
      NoSuchKinds(t, index, n);
      Immaterial(index, keys, PathKeys(t, n), m, refs);
    }
    keys := keys + PathKeys(t, n);
    assert keys == CandidateKeys(t, n);
    RefersToCandidates(t, index, rules, n, refs);
  }

  lemma {:induction false} NoSuchKinds(t: Tree, index: Index, n: int)
    requires WellFormed(t) && IsElement(t, n)
    ensures !index.HasKind(IdKey) && !index.HasKind(ClassKey) ==>
              forall k :: k in DirectKeys(t[n].attrs) ==> index.Lookup(k) == []
    ensures !index.HasAncestorKinds() ==> forall k :: k in PathKeys(t, n) ==> index.Lookup(k) == []
  {
    forall k
      ensures k in PathKeys(t, n) ==> IsAncestorKind(k.kind)
      ensures k in index.buckets ==> index.HasKind(k.kind)
    {
      PathKeysMean(t, n, k);
    }
  }

  lemma {:induction false} NoCandidates(t: Tree, index: Index, rules: seq<Rule>, n: int)
    requires WellFormed(t) && 0 <= n < |t| && Complete(index, rules) && index.count == 0
    ensures CandidatesOf(t, rules, n, [])
  {
    AllRefsNames(rules, |rules|);
    forall r
      ensures !Names(rules, r)
    {
      assert r in AllRefs(rules, |rules|) ==> r.sequence < index.count;
    }
  }
}
