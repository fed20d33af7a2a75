/** The index key a selector is filed under, and why it is a necessary
    condition of a match. */
module SelectorKeys {
  import opened Documents
  import opened Selectors

  datatype KeyKind = Universal | TagKey | IdKey | ClassKey | AncestorTag | AncestorId | AncestorClass

  datatype Key = Key(kind: KeyKind, value: string)

  const UNIVERSAL := Key(Universal, "")

  /** The last id, the first class and the last tag named by a compound; "" when absent. */
  function LastId(c: Compound): string {
    if c == [] then "" else
      var rest := LastId(c[1..]);
      if rest == "" && c[0].Id? then c[0].name else rest
  }

  function FirstClass(c: Compound): string {
    if c == [] then "" else if c[0].Class? && c[0].name != "" then c[0].name else FirstClass(c[1..])
  }

  function LastTag(c: Compound): string {
    if c == [] then "" else
      var rest := LastTag(c[1..]);
      if rest == "" && c[0].Tag? then c[0].name else rest
  }

  /** The most selective positive key of one compound. */
  function CompoundKey(c: Compound): Key {
    if LastId(c) != "" then Key(IdKey, LastId(c))
    else if FirstClass(c) != "" then Key(ClassKey, FirstClass(c))
    else if LastTag(c) != "" then Key(TagKey, LastTag(c))
    else UNIVERSAL
  }

  /** The ancestor form of a local key, and back. */
  function AncestorForm(k: Key): Key {
    match k.kind
    case TagKey => Key(AncestorTag, k.value)
    case IdKey => Key(AncestorId, k.value)
    case ClassKey => Key(AncestorClass, k.value)
    case _ => UNIVERSAL
  }

  function LocalForm(k: Key): Key {
    match k.kind
    case AncestorTag => Key(TagKey, k.value)
    case AncestorId => Key(IdKey, k.value)
    case AncestorClass => Key(ClassKey, k.value)
    case _ => UNIVERSAL
  }

  predicate IsAncestorKind(kind: KeyKind) {
    kind == AncestorTag || kind == AncestorId || kind == AncestorClass
  }

  /** The nearest usable key among compounds `0..i`, searched from the right. */
  function NearestAncestorKey(s: Selector, i: nat): (k: Key)
    requires i <= |s.compounds|
    ensures k == UNIVERSAL || exists j ::
              0 <= j < i && k == AncestorForm(CompoundKey(s.compounds[j])) && IsAncestorKind(k.kind)
  {
    if i == 0 then UNIVERSAL
    else
      var k := AncestorForm(CompoundKey(s.compounds[i - 1]));
      if k.kind != Universal then k else NearestAncestorKey(s, i - 1)
  }

  /** The bucket a compiled selector is filed under. */
  function PlanKey(s: Selector): (k: Key)
    requires s.Shaped()
  {
    var rightmost := CompoundKey(s.compounds[|s.combinators|]);
    if rightmost.kind != Universal then rightmost
    else if s.AncestorOnly() then NearestAncestorKey(s, |s.combinators|)
    else UNIVERSAL
  }

  /** The tag an element is looked up by: foreign names are folded. */
  function IndexTag(n: Node): string {
    if n.namespace != "" then AsciiLower(n.data) else n.data
  }

  /** The first value of an attribute, or "". */
  function FirstValue(attrs: seq<Attribute>, key: string): string {
    if attrs == [] then "" else if attrs[0].key == key then attrs[0].val else FirstValue(attrs[1..], key)
  }

  /** Element `n` supplies the local key `k`. */
  predicate Supplies(t: Tree, n: int, k: Key) {
    IsElement(t, n) &&
    match k.kind
    case TagKey => IndexTag(t[n]) == k.value
    case IdKey => k.value != "" && FirstValue(t[n].attrs, "id") == k.value
    case ClassKey => HasToken(FirstValue(t[n].attrs, "class"), k.value)
    case _ => false
  }

  /** Element `n` is eligible for the bucket `k`. */
  ghost predicate Eligible(t: Tree, n: int, k: Key)
    requires WellFormed(t) && 0 <= n < |t|
  {
    || k.kind == Universal
    || Supplies(t, n, k)
    || (IsAncestorKind(k.kind) && exists a :: Above(t, a, n) && Supplies(t, a, LocalForm(k)))
  }

  /** Type selectors are compiled in lower case, as the parser folds HTML names. */
  predicate FoldedTags(s: Selector) {
    forall i, j :: 0 <= i < |s.compounds| && 0 <= j < |s.compounds[i]| && s.compounds[i][j].Tag? ==>
                     AsciiLower(s.compounds[i][j].name) == s.compounds[i][j].name
  }

  lemma {:induction false} LastIdIn(c: Compound)
    ensures LastId(c) != "" ==> Id(LastId(c)) in c
  {
    if c != [] { LastIdIn(c[1..]); }
  }

  lemma {:induction false} FirstClassIn(c: Compound)
    ensures FirstClass(c) != "" ==> Class(FirstClass(c)) in c
  {
    if c != [] { FirstClassIn(c[1..]); }
  }

  lemma {:induction false} LastTagIn(c: Compound)
    ensures LastTag(c) != "" ==> Tag(LastTag(c)) in c
  {
    if c != [] { LastTagIn(c[1..]); }
  }

  /** With distinct attribute names the first value is the only value. */
  lemma {:induction false} FirstValueIs(attrs: seq<Attribute>, a: Attribute)
    requires DistinctKeys(attrs) && a in attrs
    ensures FirstValue(attrs, a.key) == a.val
  {
    if attrs[0] != a {
      var i :| 0 <= i < |attrs| && attrs[i] == a;
      assert attrs[1..][i - 1] == a;
      assert DistinctKeys(attrs[1..]);
      FirstValueIs(attrs[1..], a);
    }
  }

  lemma {:induction false} SuppliesSimple(t: Tree, n: int, s: Simple, k: Key)
    requires Parsed(t) && SimpleMatches(t, s, n) && !s.Other? && s.name == k.value != ""
    requires (s.Id? && k.kind == IdKey) || (s.Class? && k.kind == ClassKey) ||
             (s.Tag? && k.kind == TagKey && AsciiLower(s.name) == s.name)
    ensures Supplies(t, n, k)
  {
    if s.Id? {
      var a :| a in t[n].attrs && a.key == "id" && a.val == s.name;
      FirstValueIs(t[n].attrs, a);
    } else if s.Class? {
      var a :| a in t[n].attrs && a.key == "class" && HasToken(a.val, s.name);
      FirstValueIs(t[n].attrs, a);
    }
  }

  /** A matching compound's key is supplied by the element it matches. */
  lemma {:induction false} CompoundKeySupplied(t: Tree, c: Compound, n: int)
    requires Parsed(t) && CompoundMatches(t, c, n)
    requires forall j :: 0 <= j < |c| && c[j].Tag? ==> AsciiLower(c[j].name) == c[j].name
    ensures CompoundKey(c).kind == Universal || Supplies(t, n, CompoundKey(c))
  {
    var k := CompoundKey(c);
    LastIdIn(c);
    FirstClassIn(c);
    LastTagIn(c);
    if k.kind != Universal {
      var j :| 0 <= j < |c| &&
          c[j] == if k.kind == IdKey then Id(k.value) else if k.kind == ClassKey then Class(k.value) else Tag(k.value);
      SuppliesSimple(t, n, c[j], k);
    }
  }

  /** In a descendant/child selector every earlier compound matches some ancestor. */
  lemma {:induction false} EarlierCompoundAbove(t: Tree, s: Selector, k: nat, n: int, j: nat)
    requires WellFormed(t) && s.Shaped() && s.AncestorOnly() && j < k < |s.compounds|
    requires ChainMatches(t, s, k, n)
    ensures exists a :: Above(t, a, n) && CompoundMatches(t, s.compounds[j], a)
    decreases k
  {
    assert s.combinators[k - 1] in s.combinators;
    if s.combinators[k - 1] == Child {
      assert Above(t, ElementParent(t, n), n);
    }
    var a :| Above(t, a, n) && ChainMatches(t, s, k - 1, a);
    if j < k - 1 {
      EarlierCompoundAbove(t, s, k - 1, a, j);
      var b :| Above(t, b, a) && CompoundMatches(t, s.compounds[j], b);
      AboveTransitive(t, b, a, n);
    }
  }

  lemma {:induction false} AboveTransitive(t: Tree, b: int, a: int, n: int)
    requires WellFormed(t) && 0 <= n < |t| && 0 <= a < |t|
    requires Above(t, b, a) && Above(t, a, n)
    ensures Above(t, b, n)
    decreases n
  {
    var p := ElementParent(t, n);
    if a != p { AboveTransitive(t, b, a, p); }
  }

  /** An earlier compound's key is supplied by some ancestor of the match. */
  lemma {:induction false} EarlierKeyAbove(t: Tree, s: Selector, n: int, j: nat)
    requires Parsed(t) && s.Shaped() && s.AncestorOnly() && FoldedTags(s) && j < |s.combinators|
    requires ChainMatches(t, s, |s.combinators|, n) && CompoundKey(s.compounds[j]).kind != Universal
    ensures exists a :: Above(t, a, n) && Supplies(t, a, CompoundKey(s.compounds[j]))
  {
    EarlierCompoundAbove(t, s, |s.combinators|, n, j);
    var a :| Above(t, a, n) && CompoundMatches(t, s.compounds[j], a);
    CompoundKeySupplied(t, s.compounds[j], a);
  }

  /** Index completeness: whatever a selector matches is eligible for its bucket. */
  lemma {:induction false} MatchIsEligible(t: Tree, s: Selector, n: int)
    requires Parsed(t) && s.Shaped() && FoldedTags(s) && Matches(t, s, n)
    ensures Eligible(t, n, PlanKey(s))
  {
    var last := |s.combinators|;
    var k := PlanKey(s);
    CompoundKeySupplied(t, s.compounds[last], n);
    if CompoundKey(s.compounds[last]).kind == Universal && k.kind != Universal {
      var j :| 0 <= j < last && k == AncestorForm(CompoundKey(s.compounds[j])) && IsAncestorKind(k.kind);
      var key := CompoundKey(s.compounds[j]);
      EarlierKeyAbove(t, s, n, j);
      assert LocalForm(k) == key;
      var a :| Above(t, a, n) && Supplies(t, a, key);
    }
  }
}
