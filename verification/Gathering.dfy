/** Collecting index buckets once each, with generation-stamped marks. */
module Gathering {
  import opened SelectorKeys
  import opened ActiveAncestors
  import opened Stylesheets
  import opened SelectorIndex

  const GENERATIONS := 0x1_0000_0000

  /** One 32-bit stamp per bucket identity; a bucket is marked when its stamp is
      the current generation. */
  datatype Marks = Marks(stamps: seq<nat>, generation: nat) {
    predicate Valid() {
      generation < GENERATIONS && forall s :: 0 <= s < |stamps| ==> stamps[s] <= generation
    }

    predicate Has(s: nat) {
      s < |stamps| && stamps[s] == generation
    }

    function Stamped(s: nat): Marks
      requires s < |stamps|
    {
      this.(stamps := stamps[s := generation])
    }

    /** A fresh generation; on wrap-around the stamps are cleared. */
    function Begin(count: nat): (m: Marks)
      requires Valid()
      ensures m.Valid() && |m.stamps| >= count && forall s: nat :: !m.Has(s)
    {
      var roomy := if |stamps| < count then seq(count, _ => 0) else stamps;
      var next := (generation + 1) % GENERATIONS;
      if next == 0 then Marks(seq(|roomy|, _ => 0), 1) else Marks(roomy, next)
    }
  }

  predicate Distinct<T(==)>(xs: seq<T>) {
    forall i, j :: 0 <= i < j < |xs| ==> xs[i] != xs[j]
  }

  lemma {:induction false} DistinctSnoc<T>(xs: seq<T>, x: T)
    requires Distinct(xs) && x !in xs
    ensures Distinct(xs + [x])
  {
  }

  lemma {:induction false} DistinctConcat<T>(xs: seq<T>, ys: seq<T>)
    requires Distinct(xs) && Distinct(ys) && forall y :: y in ys ==> y !in xs
    ensures Distinct(xs + ys)
  {
    var zs := xs + ys;
    forall i, j | 0 <= i < j < |zs|
      ensures zs[i] != zs[j]
    {
      if i < |xs| <= j {
        assert zs[j] in ys;
      }
    }
  }

  /** `s` is the identity of a bucket of `keys`. */
  ghost predicate MarkOf(index: Index, keys: set<Key>, s: nat) {
    exists k :: k in keys && index.Lookup(k) != [] && Identity(index.Lookup(k)) == s
  }

  /** `b` is the bucket of one of `keys`. */
  ghost predicate BucketOf(index: Index, keys: set<Key>, b: Bucket) {
    exists k :: k in keys && index.Lookup(k) == b
  }

  /** `r` is in the bucket of one of `keys`. */
  ghost predicate RefOf(index: Index, keys: set<Key>, r: Ref) {
    exists k :: k in keys && r in index.Lookup(k)
  }

  lemma {:induction false} OneMoreKey(index: Index, keys: set<Key>, k: Key)
    ensures forall s: nat :: MarkOf(index, keys + {k}, s) <==>
              MarkOf(index, keys, s) || (index.Lookup(k) != [] && Identity(index.Lookup(k)) == s)
    ensures forall b :: BucketOf(index, keys + {k}, b) <==> BucketOf(index, keys, b) || index.Lookup(k) == b
    ensures forall r :: RefOf(index, keys + {k}, r) <==> RefOf(index, keys, r) || r in index.Lookup(k)
  {
    var more := keys + {k};
    assert forall l :: l in more <==> l in keys || l == k;
  }

  /** The marks are the identities of the buckets of `keys`. */
  ghost predicate Marked(index: Index, keys: set<Key>, m: Marks) {
    && m.Valid() && |m.stamps| >= index.count
    && forall s: nat :: m.Has(s) <==> MarkOf(index, keys, s)
  }

  lemma {:induction false} FreshMarks(index: Index, m: Marks)
    requires m.Valid()
    ensures Marked(index, {}, m.Begin(index.count))
  {
  }

  /** A bucket is marked exactly when its key has been taken. */
  lemma {:induction false} MarkedIsTaken(index: Index, rules: seq<Rule>, keys: set<Key>, m: Marks, k: Key)
    requires Complete(index, rules) && Marked(index, keys, m) && index.Lookup(k) != []
    ensures m.Has(Identity(index.Lookup(k))) <==> k in keys
    ensures Identity(index.Lookup(k)) < |m.stamps|
  {
    IdentityBelowCount(index, rules, k);
    var s := Identity(index.Lookup(k));
    if m.Has(s) {
      assert MarkOf(index, keys, s);
      var l :| l in keys && index.Lookup(l) != [] && Identity(index.Lookup(l)) == s;
      IdentityFixesKey(index, rules, k, l);
    } else {
      assert !MarkOf(index, keys, s);
    }
  }

  lemma {:induction false} MarkedStep(index: Index, keys: set<Key>, m: Marks, k: Key)
    requires Marked(index, keys, m)
    requires index.Lookup(k) != [] ==> Identity(index.Lookup(k)) < |m.stamps|
    ensures Marked(index, keys + {k}, if index.Lookup(k) == [] then m else m.Stamped(Identity(index.Lookup(k))))
  {
    OneMoreKey(index, keys, k);
  }

  /** `buckets` are the non-empty buckets of `keys`, each once. */
  ghost predicate Lists(index: Index, keys: set<Key>, buckets: seq<Bucket>) {
    && (forall b :: b in buckets <==> b != [] && BucketOf(index, keys, b))
    && Distinct(buckets)
  }

  /** A bucket whose key was not taken is not listed. */
  lemma {:induction false} NotListed(index: Index, rules: seq<Rule>, keys: set<Key>, buckets: seq<Bucket>, k: Key)
    requires Complete(index, rules) && Lists(index, keys, buckets) && k !in keys && index.Lookup(k) != []
    ensures index.Lookup(k) !in buckets
  {
    if index.Lookup(k) in buckets {
      assert BucketOf(index, keys, index.Lookup(k));
      var l :| l in keys && index.Lookup(l) == index.Lookup(k);
      IdentityFixesKey(index, rules, k, l);
    }
  }

  lemma {:induction false} ListsStep(index: Index, keys: set<Key>, buckets: seq<Bucket>, k: Key)
    requires Lists(index, keys, buckets) && index.Lookup(k) != [] && index.Lookup(k) !in buckets
    ensures Lists(index, keys + {k}, buckets + [index.Lookup(k)])
  {
    OneMoreKey(index, keys, k);
    DistinctSnoc(buckets, index.Lookup(k));
  }

  lemma {:induction false} ListsSame(index: Index, keys: set<Key>, buckets: seq<Bucket>, k: Key)
    requires Lists(index, keys, buckets) && (k in keys || index.Lookup(k) == [])
    ensures Lists(index, keys + {k}, buckets)
  {
    OneMoreKey(index, keys, k);
    if k in keys {
      assert keys + {k} == keys;
    }
  }

  /** Append the bucket of `k` to `out` unless it is empty or already marked. */
  method AppendBucket(index: Index, ghost rules: seq<Rule>, ghost keys: set<Key>, ghost listed: set<Key>, k: Key,
                      m: Marks, out: seq<Bucket>)
    returns (m': Marks, out': seq<Bucket>)
    requires Complete(index, rules) && Marked(index, keys, m) && Lists(index, listed, out)
    requires listed <= keys && (k in keys ==> k in listed)
    ensures Marked(index, keys + {k}, m') && Lists(index, listed + {k}, out')
  {
    m', out' := m, out;
    var bucket := index.Lookup(k);
    if bucket != [] {
      MarkedIsTaken(index, rules, keys, m, k);
    }
    MarkedStep(index, keys, m, k);
    if bucket == [] || m.Has(Identity(bucket)) {
      ListsSame(index, listed, out, k);
      if bucket != [] {
        assert m.Stamped(Identity(bucket)) == m;
      }
      return;
    }
    NotListed(index, rules, listed, out, k);
    ListsStep(index, listed, out, k);
    m' := m.Stamped(Identity(bucket));
    out' := out + [bucket];
  }

  /** `refs` are the references in the buckets of `keys`, each once. */
  ghost predicate RefersTo(index: Index, keys: set<Key>, refs: seq<Ref>) {
    && (forall r :: r in refs <==> RefOf(index, keys, r))
    && Distinct(refs)
  }

  lemma {:induction false} RuleRefsDistinct(rules: seq<Rule>, i: nat, k: nat)
    requires i < |rules| && k <= |rules[i].plans|
    ensures Distinct(RuleRefs(rules, i, k))
  {
    if k > 0 {
      RuleRefsDistinct(rules, i, k - 1);
      RuleRefsNames(rules, i, k - 1);
    }
  }

  lemma {:induction false} AllRefsDistinct(rules: seq<Rule>, i: nat)
    requires i <= |rules|
    ensures Distinct(AllRefs(rules, i))
  {
    if i > 0 {
      var xs, ys := AllRefs(rules, i - 1), RuleRefs(rules, i - 1, |rules[i - 1].plans|);
      AllRefsDistinct(rules, i - 1);
      RuleRefsDistinct(rules, i - 1, |rules[i - 1].plans|);
      AllRefsNames(rules, i - 1);
      RuleRefsNames(rules, i - 1, |rules[i - 1].plans|);
      assert forall a, b :: 0 <= a < |xs| && 0 <= b < |ys| ==> xs[a].rule < ys[b].rule;
    }
  }

  lemma {:induction false} FiledDistinct(rules: seq<Rule>, refs: seq<Ref>, k: Key)
    requires forall r :: r in refs ==> Names(rules, r)
    requires Distinct(refs)
    ensures Distinct(Filed(rules, refs, k))
  {
    if refs != [] {
      var rest := refs[..|refs| - 1];
      FiledDistinct(rules, rest, k);
      FiledMembers(rules, rest, k);
      assert refs[|refs| - 1] !in rest;
    }
  }

  /** The references of an untaken bucket are distinct and all new. */
  lemma {:induction false} BucketIsNew(index: Index, rules: seq<Rule>, keys: set<Key>, refs: seq<Ref>, k: Key)
    requires Complete(index, rules) && RefersTo(index, keys, refs) && k !in keys
    ensures (forall r :: r in index.Lookup(k) ==> r !in refs) && Distinct(index.Lookup(k))
  {
    AllRefsDistinct(rules, |rules|);
    FiledDistinct(rules, AllRefs(rules, |rules|), k);
    forall r | r in index.Lookup(k)
      ensures r !in refs
    {
      if r in refs {
        assert RefOf(index, keys, r);
        var l :| l in keys && r in index.Lookup(l);
        BucketMembers(index, rules, k, r);
        BucketMembers(index, rules, l, r);
      }
    }
  }

  lemma {:induction false} RefersStep(index: Index, keys: set<Key>, refs: seq<Ref>, k: Key)
    requires RefersTo(index, keys, refs)
    requires (forall r :: r in index.Lookup(k) ==> r !in refs) && Distinct(index.Lookup(k))
    ensures RefersTo(index, keys + {k}, refs + index.Lookup(k))
  {
    OneMoreKey(index, keys, k);
    DistinctConcat(refs, index.Lookup(k));
  }

  lemma {:induction false} RefersSame(index: Index, keys: set<Key>, refs: seq<Ref>, k: Key)
    requires RefersTo(index, keys, refs) && (k in keys || index.Lookup(k) == [])
    ensures RefersTo(index, keys + {k}, refs)
  {
    OneMoreKey(index, keys, k);
    if k in keys {
      assert keys + {k} == keys;
    }
  }

  /** Append the references of a bucket unless it is empty or already marked. */
  method AppendReferences(index: Index, ghost rules: seq<Rule>, ghost keys: set<Key>, ghost k: Key, bucket: Bucket,
                          m: Marks, refs: seq<Ref>)
    returns (m': Marks, refs': seq<Ref>)
    requires Complete(index, rules) && Marked(index, keys, m) && RefersTo(index, keys, refs)
    requires bucket == index.Lookup(k)
    ensures Marked(index, keys + {k}, m') && RefersTo(index, keys + {k}, refs')
  {
    m', refs' := m, refs;
    if bucket != [] {
      MarkedIsTaken(index, rules, keys, m, k);
    }
    MarkedStep(index, keys, m, k);
    if bucket == [] || m.Has(Identity(bucket)) {
      RefersSame(index, keys, refs, k);
      if bucket != [] {
        assert m.Stamped(Identity(bucket)) == m;
      }
      return;
    }
    BucketIsNew(index, rules, keys, refs, k);
    RefersStep(index, keys, refs, k);
    m' := m.Stamped(Identity(bucket));
    refs' := refs + bucket;
  }
}
