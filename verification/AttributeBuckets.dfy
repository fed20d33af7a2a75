/** The buckets selected by an element's id and class attributes. */
module AttributeBuckets {
  import opened Documents
  import opened SelectorKeys
  import opened ActiveAncestors
  import opened Stylesheets
  import opened SelectorIndex
  import opened Gathering

  datatype AttributeCandidates = AttributeCandidates(direct: seq<Bucket>, ancestor: seq<Bucket>)

  /** The id and class keys an attribute list supplies. */
  function DirectKeys(attrs: seq<Attribute>): set<Key> {
    IdKeys(FirstValue(attrs, "id")) + ClassKeys(FirstValue(attrs, "class"), |FirstValue(attrs, "class")|)
  }

  function IdKeys(id: string): set<Key> {
    if id != "" then {Key(IdKey, id)} else {}
  }

  /** The class tokens that end at or before `upTo`. */
  function ClassKeys(classes: string, upTo: nat): set<Key>
    requires upTo <= |classes|
  {
    set i, j | 0 <= i <= j <= upTo && TokenAt(classes, i, j) :: Key(ClassKey, classes[i..j])
  }

  function AncestorForms(keys: set<Key>): set<Key> {
    set k | k in keys :: AncestorForm(k)
  }

  ghost predicate AttributeListing(index: Index, attrs: seq<Attribute>, c: AttributeCandidates) {
    && Lists(index, DirectKeys(attrs), c.direct)
    && Lists(index, AncestorForms(DirectKeys(attrs)), c.ancestor)
  }

  lemma {:induction false} DirectKeysSupplied(t: Tree, n: int, k: Key)
    requires IsElement(t, n)
    ensures k in DirectKeys(t[n].attrs) <==> (k.kind == IdKey || k.kind == ClassKey) && Supplies(t, n, k)
  {
    var v := FirstValue(t[n].attrs, "class");
    if k.kind == ClassKey && HasToken(v, k.value) {
      var i, j :| 0 <= i <= j <= |v| && TokenAt(v, i, j) && v[i..j] == k.value;
      assert Key(ClassKey, v[i..j]) in ClassKeys(v, |v|);
    }
  }

  lemma {:induction false} AncestorFormInverse(k: Key, keys: set<Key>)
    requires forall l :: l in keys ==> l.kind == IdKey || l.kind == ClassKey
    ensures k in AncestorForms(keys) <==> (k.kind == AncestorId || k.kind == AncestorClass) && LocalForm(k) in keys
  {
    if (k.kind == AncestorId || k.kind == AncestorClass) && LocalForm(k) in keys {
      assert AncestorForm(LocalForm(k)) == k;
    }
  }

  /** The keys gathered so far: some local keys and their ancestor forms. */
  ghost predicate Gathered(index: Index, keys: set<Key>, c: AttributeCandidates, m: Marks) {
    && (forall k :: k in keys ==> k.kind == IdKey || k.kind == ClassKey)
    && Lists(index, keys, c.direct) && Lists(index, AncestorForms(keys), c.ancestor)
    && Marked(index, keys + AncestorForms(keys), m)
  }

  lemma {:induction false} AncestorFormsStep(keys: set<Key>, k: Key)
    ensures AncestorForms(keys + {k}) == AncestorForms(keys) + {AncestorForm(k)}
  {
  }

  /** Take the direct and the ancestor bucket of one attribute value. */
  method AppendIndexed(index: Index, ghost rules: seq<Rule>, ghost keys: set<Key>, k: Key, c: AttributeCandidates,
                       m: Marks)
    returns (c': AttributeCandidates, m': Marks)
    requires Complete(index, rules) && Gathered(index, keys, c, m) && (k.kind == IdKey || k.kind == ClassKey)
    ensures Gathered(index, keys + {k}, c', m')
  {
    ghost var forms := AncestorForms(keys);
    AncestorFormInverse(k, keys);
    AncestorFormInverse(AncestorForm(k), keys);
    var direct, ancestor;
    m', direct := AppendBucket(index, rules, keys + forms, keys, k, m, c.direct);
    m', ancestor := AppendBucket(index, rules, keys + forms + {k}, forms, AncestorForm(k), m', c.ancestor);
    c' := AttributeCandidates(direct, ancestor);
    AncestorFormsStep(keys, k);
    assert keys + forms + {k} + {AncestorForm(k)} == (keys + {k}) + AncestorForms(keys + {k});
  }

  /** The first id and class values, of those that are needed. */
  method ScanAttributes(attrs: seq<Attribute>, needID: bool, needClass: bool) returns (id: string, classes: string)
    ensures id == if needID then FirstValue(attrs, "id") else ""
    ensures classes == if needClass then FirstValue(attrs, "class") else ""
  {
    id, classes := "", "";
    var idSeen, classSeen := !needID, !needClass;
    for i := 0 to |attrs|
      invariant needID ==> FirstValue(attrs, "id") == if idSeen then id else FirstValue(attrs[i..], "id")
      invariant needClass ==>
                  FirstValue(attrs, "class") == if classSeen then classes else FirstValue(attrs[i..], "class")
      invariant !idSeen || !needID ==> id == ""
      invariant !classSeen || !needClass ==> classes == ""
      invariant !needID ==> idSeen
      invariant !needClass ==> classSeen
    {
      if attrs[i].key == "id" {
        if !idSeen {
          id, idSeen := attrs[i].val, true;
        }
      } else if attrs[i].key == "class" {
        if !classSeen {
          classes, classSeen := attrs[i].val, true;
        }
      }
      if idSeen && classSeen {
        break;
      }
    }
  }

  /** A token that ends after `start` begins at or after it, and no token ends
      within a run of spaces. */
  lemma {:induction false} NextToken(classes: string, start: nat, first: nat, end: nat)
    requires start <= first <= end <= |classes|
    requires start == 0 || start == |classes| || IsCssSpace(classes[start])
    requires forall k :: start <= k < first ==> IsCssSpace(classes[k])
    requires forall k :: first <= k < end ==> !IsCssSpace(classes[k])
    requires first == |classes| || !IsCssSpace(classes[first])
    requires end == |classes| || IsCssSpace(classes[end])
    ensures ClassKeys(classes, end) ==
            ClassKeys(classes, start) + if first < end then {Key(ClassKey, classes[first..end])} else {}
  {
    if first < end {
      assert first == 0 || IsCssSpace(classes[first - 1]) || first == start;
    }
    forall i, j | 0 <= i <= j <= end && TokenAt(classes, i, j) && j > start
      ensures i == first && j == end && first < end
    {
      assert !IsCssSpace(classes[j - 1]);
      assert j - 1 >= first;
    }
  }

  /** The next word at or after `start`: a run of spaces, then a run of others. */
  method NextWord(classes: string, start: nat) returns (first: nat, end: nat)
    requires start < |classes| && (start == 0 || IsCssSpace(classes[start]))
    ensures start < end <= |classes| && first <= end && (end == |classes| || IsCssSpace(classes[end]))
    ensures ClassKeys(classes, end) ==
            ClassKeys(classes, start) + if first < end then {Key(ClassKey, classes[first..end])} else {}
  {
    first := start;
    while first < |classes| && IsCssSpace(classes[first])
      invariant start <= first <= |classes|
      invariant forall k :: start <= k < first ==> IsCssSpace(classes[k])
    {
      first := first + 1;
    }
    end := first;
    while end < |classes| && !IsCssSpace(classes[end])
      invariant first <= end <= |classes|
      invariant forall k :: first <= k < end ==> !IsCssSpace(classes[k])
    {
      end := end + 1;
    }
    NextToken(classes, start, first, end);
  }

  /** All class tokens of an attribute value. */
  method ScanClasses(index: Index, ghost rules: seq<Rule>, classes: string, ghost keys: set<Key>,
                     c: AttributeCandidates, m: Marks)
    returns (c': AttributeCandidates, m': Marks)
    requires Complete(index, rules) && Gathered(index, keys, c, m)
    ensures Gathered(index, keys + ClassKeys(classes, |classes|), c', m')
  {
    c', m' := c, m;
    var start := 0;
    ghost var taken := keys;
    while start < |classes|
      invariant 0 <= start <= |classes|
      invariant start == 0 || start == |classes| || IsCssSpace(classes[start])
      invariant taken == keys + ClassKeys(classes, start)
      invariant Gathered(index, taken, c', m')
    {
      var first, end := NextWord(classes, start);
      if end > first {
        c', m' := AppendIndexed(index, rules, taken, Key(ClassKey, classes[first..end]), c', m');
        taken := taken + {Key(ClassKey, classes[first..end])};
      }
      start := end;
    }
  }

  /** Keys of kinds the index does not hold add nothing. */
  lemma {:induction false} GatheredUnneeded(index: Index, keys: set<Key>, more: set<Key>, c: AttributeCandidates,
                                            m: Marks)
    requires Gathered(index, keys, c, m)
    requires forall k :: k in more ==>
               (k.kind == IdKey || k.kind == ClassKey) && index.Lookup(k) == [] && index.Lookup(AncestorForm(k)) == []
    ensures Gathered(index, keys + more, c, m)
    decreases more
  {
    if more == {} {
      assert keys + more == keys;
    } else {
      var k :| k in more;
      ListsSame(index, keys, c.direct, k);
      ListsSame(index, AncestorForms(keys), c.ancestor, AncestorForm(k));
      AncestorFormsStep(keys, k);
      var forms := AncestorForms(keys);
      MarkedStep(index, keys + forms, m, k);
      MarkedStep(index, keys + forms + {k}, m, AncestorForm(k));
      assert keys + forms + {k} + {AncestorForm(k)} == (keys + {k}) + AncestorForms(keys + {k});
      GatheredUnneeded(index, keys + {k}, more - {k}, c, m);
      assert (keys + {k}) + (more - {k}) == keys + more;
    }
  }

  predicate NeedsId(index: Index) {
    index.HasKind(IdKey) || index.HasKind(AncestorId)
  }

  predicate NeedsClass(index: Index) {
    index.HasKind(ClassKey) || index.HasKind(AncestorClass)
  }

  lemma {:induction false} UnneededEmpty(index: Index, k: Key)
    requires (k.kind == IdKey && !NeedsId(index)) || (k.kind == ClassKey && !NeedsClass(index))
    ensures index.Lookup(k) == [] && index.Lookup(AncestorForm(k)) == []
  {
    assert k in index.buckets ==> index.HasKind(k.kind);
    assert AncestorForm(k) in index.buckets ==> index.HasKind(AncestorForm(k).kind);
  }

  /** One pass over an element's attributes. */
  method SelectBuckets(index: Index, ghost rules: seq<Rule>, attrs: seq<Attribute>, marks: Marks)
    returns (c: AttributeCandidates, m: Marks)
    requires Complete(index, rules) && marks.Valid()
    ensures m.Valid() && AttributeListing(index, attrs, c)
  {
    c, m := AttributeCandidates([], []), marks.Begin(index.count);
    FreshMarks(index, marks);
    ghost var keys: set<Key> := {};
    assert AncestorForms(keys) == {} && keys + AncestorForms(keys) == {};
    var id, classes := ScanAttributes(attrs, NeedsId(index), NeedsClass(index));
    ghost var ids := IdKeys(FirstValue(attrs, "id"));
    ghost var value := FirstValue(attrs, "class");
    if id != "" {
      c, m := AppendIndexed(index, rules, keys, Key(IdKey, id), c, m);
    } else {
      forall k | k in ids { UnneededEmpty(index, k); }
      GatheredUnneeded(index, keys, ids, c, m);
    }
    assert keys + ids == ids;
    assert id != "" ==> keys + {Key(IdKey, id)} == ids;
    c, m := ScanClasses(index, rules, classes, ids, c, m);
    if !NeedsClass(index) {
      assert ids + ClassKeys(classes, |classes|) == ids;
      forall k | k in ClassKeys(value, |value|) { UnneededEmpty(index, k); }
      GatheredUnneeded(index, ids, ClassKeys(value, |value|), c, m);
    }
  }

  /** Without attributes, or without id and class buckets, nothing is selected. */
  lemma {:induction false} NothingSelected(index: Index, attrs: seq<Attribute>)
    requires attrs == [] || (!NeedsId(index) && !NeedsClass(index))
    ensures AttributeListing(index, attrs, AttributeCandidates([], []))
  {
    var keys := DirectKeys(attrs);
    forall k | k in keys
      ensures index.Lookup(k) == [] && index.Lookup(AncestorForm(k)) == []
    {
      UnneededEmpty(index, k);
    }
  }
}
