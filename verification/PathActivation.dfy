/** Activating and deactivating an element's ancestor buckets for its children. */
module PathActivation {
  import opened Documents
  import opened SelectorKeys
  import opened ActiveAncestors
  import opened Stylesheets
  import opened SelectorIndex
  import opened Gathering
  import opened AttributeBuckets
  import opened Candidates
  import opened SheetCaches

  datatype Activation = Activation(tag: Bucket, attributes: seq<Bucket>) {
    function Buckets(): seq<Bucket> {
      [tag] + attributes
    }
  }

  const INACTIVE := Activation([], [])

  /** The identities a list of buckets contributes; empty buckets contribute none. */
  ghost function Ids(buckets: seq<Bucket>): multiset<nat> {
    if buckets == [] then multiset{}
    else (if buckets[0] == [] then multiset{} else multiset{Identity(buckets[0])}) + Ids(buckets[1..])
  }

  lemma {:induction false} IdsSnoc(buckets: seq<Bucket>, b: Bucket)
    ensures Ids(buckets + [b]) == Ids(buckets) + (if b == [] then multiset{} else multiset{Identity(b)})
  {
    if buckets == [] {
      assert buckets + [b] == [b];
    } else {
      assert (buckets + [b])[1..] == buckets[1..] + [b];
      IdsSnoc(buckets[1..], b);
    }
  }

  lemma {:induction false} IdsMembers(buckets: seq<Bucket>, s: nat)
    ensures s in Ids(buckets) <==> exists i :: 0 <= i < |buckets| && buckets[i] != [] && Identity(buckets[i]) == s
  {
    if buckets != [] {
      IdsMembers(buckets[1..], s);
      if i :| 0 <= i < |buckets[1..]| && buckets[1..][i] != [] && Identity(buckets[1..][i]) == s {
        assert buckets[i + 1] != [] && Identity(buckets[i + 1]) == s;
      }
      if i :| 0 <= i < |buckets| && buckets[i] != [] && Identity(buckets[i]) == s && i > 0 {
        assert buckets[1..][i - 1] == buckets[i];
      }
    }
  }

  /** Every bucket is some table entry of the index, or empty. */
  ghost predicate FromIndex(index: Index, buckets: seq<Bucket>) {
    forall i :: 0 <= i < |buckets| ==> Known(index, buckets[i])
  }

  ghost predicate Known(index: Index, b: Bucket) {
    b == [] || (Identity(b) < index.count && exists k :: index.Lookup(k) == b)
  }

  /** `m` holds exactly the identities of the buckets of `keys`. */
  ghost predicate Keyed(index: Index, keys: set<Key>, m: multiset<nat>) {
    forall s: nat :: s in m <==> MarkOf(index, keys, s)
  }

  /** The active list is in step with the contributors counted in `m`. */
  ghost predicate InStep(index: Index, a: Active, m: multiset<nat>) {
    a.Represents(m) && |a.counts| >= index.count && FromIndex(index, a.buckets)
  }

  lemma {:induction false} AddedInStep(index: Index, a: Active, m: multiset<nat>, b: Bucket)
    requires InStep(index, a, m) && Known(index, b)
    ensures a.Admits(b) && InStep(index, a.Added(b), if b == [] then m else m + multiset{Identity(b)})
  {
    a.AddedRepresents(b, m);
  }

  lemma {:induction false} RemovedInStep(index: Index, a: Active, m: multiset<nat>, b: Bucket)
    requires InStep(index, a, m) && a.Admits(b) && a.Removed.requires(b)
    ensures InStep(index, a.Removed(b), if b == [] then m else m - multiset{Identity(b)})
  {
    a.RemovedRepresents(b, m);
    var rest := a.Removed(b).buckets;
    forall i | 0 <= i < |rest|
      ensures Known(index, rest[i])
    {
      assert rest[i] == a.buckets[i] || rest[i] == a.buckets[|a.buckets| - 1];
    }
  }

  /** In step with the keys of a path, the list is that path's buckets. */
  lemma {:induction false} InStepLists(index: Index, rules: seq<Rule>, a: Active, m: multiset<nat>, keys: set<Key>)
    requires Complete(index, rules) && InStep(index, a, m) && Keyed(index, keys, m)
    ensures Lists(index, keys, a.buckets)
  {
    a.ListIsSupport(m);
    forall b
      ensures b in a.buckets <==> b != [] && BucketOf(index, keys, b)
    {
      if b in a.buckets {
        ListedIsKeyed(index, rules, a, m, keys, b);
      }
      if b != [] && BucketOf(index, keys, b) {
        var k :| k in keys && index.Lookup(k) == b;
        assert MarkOf(index, keys, Identity(b));
        var i :| 0 <= i < |a.buckets| && a.buckets[i] != [] && Identity(a.buckets[i]) == Identity(b);
        assert Known(index, a.buckets[i]);
        var l :| index.Lookup(l) == a.buckets[i];
        IdentityFixesKey(index, rules, k, l);
      }
    }
  }

  lemma {:induction false} ListedIsKeyed(index: Index, rules: seq<Rule>, a: Active, m: multiset<nat>, keys: set<Key>,
                                         b: Bucket)
    requires Complete(index, rules) && InStep(index, a, m) && Keyed(index, keys, m) && b in a.buckets
    ensures b != [] && BucketOf(index, keys, b)
  {
    var i :| 0 <= i < |a.buckets| && a.buckets[i] == b;
    a.ListedIsActive(i, m);
    assert Known(index, a.buckets[i]) && MarkOf(index, keys, Identity(b));
    var k :| k in keys && index.Lookup(k) != [] && Identity(index.Lookup(k)) == Identity(b);
    var l :| index.Lookup(l) == b;
    IdentityFixesKey(index, rules, k, l);
  }

  /** The activation of element `n`: exactly its supplied keys' buckets. */
  ghost predicate Activates(index: Index, t: Tree, n: int, act: Activation)
    requires IsElement(t, n)
  {
    FromIndex(index, act.Buckets()) && Keyed(index, SuppliedKeys(t, n), Ids(act.Buckets()))
  }

  /** The non-empty ones of `buckets` are those of `keys`. */
  ghost predicate Covers(index: Index, keys: set<Key>, buckets: seq<Bucket>) {
    forall b :: b != [] ==> (b in buckets <==> BucketOf(index, keys, b))
  }

  lemma {:induction false} CoversKeyed(index: Index, rules: seq<Rule>, keys: set<Key>, buckets: seq<Bucket>)
    requires Complete(index, rules) && Covers(index, keys, buckets)
    ensures FromIndex(index, buckets) && Keyed(index, keys, Ids(buckets))
  {
    forall i | 0 <= i < |buckets|
      ensures Known(index, buckets[i])
    {
      if buckets[i] != [] {
        assert BucketOf(index, keys, buckets[i]);
        var k :| k in keys && index.Lookup(k) == buckets[i];
        IdentityBelowCount(index, rules, k);
      }
    }
    forall s: nat
      ensures s in Ids(buckets) <==> MarkOf(index, keys, s)
    {
      IdsMembers(buckets, s);
      if i :| 0 <= i < |buckets| && buckets[i] != [] && Identity(buckets[i]) == s {
        assert BucketOf(index, keys, buckets[i]);
      }
      if k :| k in keys && index.Lookup(k) != [] && Identity(index.Lookup(k)) == s {
        assert BucketOf(index, keys, index.Lookup(k));
        var i :| 0 <= i < |buckets| && buckets[i] == index.Lookup(k);
      }
    }
  }

  lemma {:induction false} ActivationKeyed(index: Index, rules: seq<Rule>, t: Tree, n: int, act: Activation)
    requires Complete(index, rules) && IsElement(t, n)
    requires act.tag == index.Lookup(Key(AncestorTag, IndexTag(t[n])))
    requires Lists(index, AncestorForms(DirectKeys(t[n].attrs)), act.attributes)
    ensures Activates(index, t, n, act)
  {
    var tag, forms := Key(AncestorTag, IndexTag(t[n])), AncestorForms(DirectKeys(t[n].attrs));
    assert SuppliedKeys(t, n) == forms + {tag};
    OneMoreKey(index, forms, tag);
    forall b | b != []
      ensures b in act.Buckets() <==> BucketOf(index, SuppliedKeys(t, n), b)
    {
      assert b in act.Buckets() <==> b == act.tag || b in act.attributes;
    }
    CoversKeyed(index, rules, SuppliedKeys(t, n), act.Buckets());
  }

  /** Record an element's ancestor keys for its children. */
  method ActivateAncestorBuckets(sheet: Sheet, n: int, ghost m: multiset<nat>) returns (act: Activation)
    requires sheet.Fixed() && sheet.Caches() && IsElement(sheet.tree, n) && sheet.index.HasAncestorKinds()
    requires InStep(sheet.index, sheet.active.State(), m)
    modifies sheet, sheet.active
    ensures sheet.Caches() && Activates(sheet.index, sheet.tree, n, act)
    ensures InStep(sheet.index, sheet.active.State(), m + Ids(act.Buckets()))
  {
    var tag := sheet.index.Lookup(Key(AncestorTag, IndexTag(sheet.tree[n])));
    var attributes := [];
    if NeedsAncestorAttributes(sheet.index) {
      var c := sheet.AttributeCandidateBuckets(n);
      attributes := c.ancestor;
    } else {
      NoAncestorAttributes(sheet.index, sheet.tree[n].attrs);
    }
    act := Activation(tag, attributes);
    ActivationKeyed(sheet.index, sheet.rules, sheet.tree, n, act);
    AddAll(sheet.index, sheet.active, act.Buckets(), m);
  }

  predicate NeedsAncestorAttributes(index: Index) {
    index.HasKind(AncestorId) || index.HasKind(AncestorClass)
  }

  lemma {:induction false} NoAncestorAttributes(index: Index, attrs: seq<Attribute>)
    requires !NeedsAncestorAttributes(index)
    ensures Lists(index, AncestorForms(DirectKeys(attrs)), [])
  {
    forall k | k in AncestorForms(DirectKeys(attrs))
      ensures index.Lookup(k) == []
    {
      assert k in index.buckets ==> index.HasKind(k.kind);
    }
  }

  ghost function Id(b: Bucket): multiset<nat> {
    if b == [] then multiset{} else multiset{Identity(b)}
  }

  lemma {:induction false} IdsNext(m: multiset<nat>, buckets: seq<Bucket>, i: nat)
    requires i < |buckets|
    ensures m + Ids(buckets[..i + 1]) == m + Ids(buckets[..i]) + Id(buckets[i])
    ensures m + Ids(buckets[i..]) == m + Ids(buckets[i + 1..]) + Id(buckets[i])
  {
    assert buckets[..i + 1] == buckets[..i] + [buckets[i]];
    IdsSnoc(buckets[..i], buckets[i]);
    assert buckets[i..][1..] == buckets[i + 1..];
  }

  method AddOne(index: Index, active: ActiveBuckets, b: Bucket, ghost m: multiset<nat>)
    requires InStep(index, active.State(), m) && Known(index, b)
    modifies active
    ensures InStep(index, active.State(), m + Id(b))
  {
    AddedInStep(index, active.State(), m, b);
    active.Add(b);
    assert b == [] ==> m + Id(b) == m;
  }

  method RemoveOne(index: Index, active: ActiveBuckets, b: Bucket, ghost m: multiset<nat>)
    requires InStep(index, active.State(), m + Id(b)) && Known(index, b)
    modifies active
    ensures InStep(index, active.State(), m)
  {
    active.State().Removable(b, m + Id(b));
    RemovedInStep(index, active.State(), m + Id(b), b);
    active.Remove(b);
    assert b == [] ==> m + Id(b) == m;
    assert b != [] ==> m + Id(b) - multiset{Identity(b)} == m;
  }

  method AddAll(index: Index, active: ActiveBuckets, buckets: seq<Bucket>, ghost m: multiset<nat>)
    requires InStep(index, active.State(), m) && FromIndex(index, buckets)
    modifies active
    ensures InStep(index, active.State(), m + Ids(buckets))
  {
    ghost var now := m;
    for i := 0 to |buckets|
      invariant now == m + Ids(buckets[..i]) && InStep(index, active.State(), now)
    {
      AddOne(index, active, buckets[i], now);
      now := now + Id(buckets[i]);
      IdsNext(m, buckets, i);
    }
    assert buckets[..|buckets|] == buckets;
  }

  /** Take one contributor off every bucket of the activation. */
  method DeactivateAncestorBuckets(index: Index, active: ActiveBuckets, act: Activation, ghost m: multiset<nat>)
    requires FromIndex(index, act.Buckets())
    requires InStep(index, active.State(), m + Ids(act.Buckets()))
    modifies active
    ensures InStep(index, active.State(), m)
  {
    var buckets := act.Buckets();
    ghost var now := m + Ids(buckets);
    assert buckets[0..] == buckets;
    for i := 0 to |buckets|
      invariant now == m + Ids(buckets[i..]) && InStep(index, active.State(), now)
    {
      ghost var next := m + Ids(buckets[i + 1..]);
      IdsNext(m, buckets, i);
      RemoveOne(index, active, buckets[i], next);
      now := next;
    }
    assert m + Ids([]) == m;
  }
}
