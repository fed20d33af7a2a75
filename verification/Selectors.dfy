/** Selectors as compounds of simple selectors joined by combinators, their
    meaning on a document, and the index key a compound is filed under. */
module Selectors {
  import opened Documents

  /** `Other` stands for any further condition (attribute tests, negation,
      :root): it accepts an arbitrary set of nodes. */
  datatype Simple = Tag(name: string) | Id(name: string) | Class(name: string) | Other(accepts: set<int>)

  type Compound = seq<Simple>

  datatype Combinator = Descendant | Child | Adjacent | Sibling

  datatype Selector = Selector(compounds: seq<Compound>, combinators: seq<Combinator>) {
    predicate Shaped() {
      |compounds| == |combinators| + 1
    }

    predicate AncestorOnly() {
      forall c :: c in combinators ==> c == Descendant || c == Child
    }
  }

  predicate SimpleMatches(t: Tree, s: Simple, n: int) {
    IsElement(t, n) &&
    match s
    case Tag(name) => t[n].data == name
    case Id(name) => exists a :: a in t[n].attrs && a.key == "id" && a.val == name
    case Class(name) => exists a :: a in t[n].attrs && a.key == "class" && HasToken(a.val, name)
    case Other(accepts) => n in accepts
  }

  predicate CompoundMatches(t: Tree, c: Compound, n: int) {
    IsElement(t, n) && forall i :: 0 <= i < |c| ==> SimpleMatches(t, c[i], n)
  }

  /** The first `k + 1` compounds match with compound `k` at element `n`. */
  predicate ChainMatches(t: Tree, s: Selector, k: nat, n: int)
    requires WellFormed(t) && s.Shaped() && k < |s.compounds|
    decreases k
  {
    CompoundMatches(t, s.compounds[k], n) &&
    (k == 0 ||
     match s.combinators[k - 1]
     case Descendant => exists a :: 0 <= a < n && Above(t, a, n) && ChainMatches(t, s, k - 1, a)
     case Child => var p := ElementParent(t, n); p >= 0 && ChainMatches(t, s, k - 1, p)
     case Adjacent => exists m :: 0 <= m < n && PreviousElement(t, m, n) && ChainMatches(t, s, k - 1, m)
     case Sibling => exists m :: 0 <= m < n && SameParent(t, m, n) && ChainMatches(t, s, k - 1, m))
  }

  /** The whole selector matches element `n`. */
  predicate Matches(t: Tree, s: Selector, n: int)
    requires WellFormed(t) && s.Shaped()
  {
    ChainMatches(t, s, |s.combinators|, n)
  }

  /* The same, as places for all the compounds at once. */

  /** Each node of the path is the parent of the one before it. */
  predicate Rises(t: Tree, path: seq<int>) {
    && |path| >= 2 && (forall k :: 0 <= k < |path| ==> 0 <= path[k] < |t|)
    && (forall k :: 0 <= k < |path| - 1 ==> t[path[k]].parent == path[k + 1])
  }

  /** From `n` up to the element `m`. */
  predicate Leads(t: Tree, path: seq<int>, n: int, m: int) {
    Rises(t, path) && path[0] == n && path[|path| - 1] == m && t[m].element
  }

  /** `m` is the nearest element above, with no other on the way to it. */
  predicate LeadsFirst(t: Tree, path: seq<int>, n: int, m: int) {
    Leads(t, path, n, m) && forall k :: 0 < k < |path| - 1 ==> !t[path[k]].element
  }

  /** What a combinator asks of the elements on its two sides. */
  ghost predicate Related(t: Tree, c: Combinator, m: int, n: int) {
    0 <= m < |t| && 0 <= n < |t| &&
    match c
    case Descendant => exists path :: Leads(t, path, n, m)
    case Child => exists path :: LeadsFirst(t, path, n, m)
    case Adjacent =>
      && m < n && t[m].parent == t[n].parent
      && forall k :: m < k < n && t[k].parent == t[n].parent ==> !t[k].element
    case Sibling => m < n && t[m].parent == t[n].parent
  }

  /** Element `places[i]` matches compound `i` and stands to the next as the
      combinator between them asks. */
  ghost predicate Placed(t: Tree, s: Selector, places: seq<int>)
    requires s.Shaped()
  {
    && 0 < |places| <= |s.compounds|
    && (forall i :: 0 <= i < |places| ==> CompoundMatches(t, s.compounds[i], places[i]))
    && (forall i :: 0 < i < |places| ==> Related(t, s.combinators[i - 1], places[i - 1], places[i]))
  }

  lemma {:induction false} UpLeads(t: Tree, n: int) returns (path: seq<int>)
    requires WellFormed(t) && 0 <= n < |t| && ElementParent(t, n) >= 0
    ensures LeadsFirst(t, path, n, ElementParent(t, n))
    decreases n
  {
    var p := t[n].parent;
    if t[p].element {
      path := [n, p];
    } else {
      var rest := UpLeads(t, p);
      path := Longer(t, n, rest, ElementParent(t, n));
    }
  }

  /** One more step at the bottom of a path. */
  lemma {:induction false} Longer(t: Tree, n: int, rest: seq<int>, m: int) returns (path: seq<int>)
    requires 0 <= n < |t| && 0 <= t[n].parent < |t| && Leads(t, rest, t[n].parent, m)
    ensures path == [n] + rest && Leads(t, path, n, m)
    ensures LeadsFirst(t, rest, t[n].parent, m) && !t[t[n].parent].element ==> LeadsFirst(t, path, n, m)
  {
    path := [n] + rest;
    forall k | 0 <= k < |path| - 1
      ensures t[path[k]].parent == path[k + 1]
    {
      assert k > 0 ==> path[k] == rest[k - 1] && path[k + 1] == rest[k];
    }
  }

  lemma {:induction false} LeadsUp(t: Tree, path: seq<int>, n: int, m: int)
    requires WellFormed(t) && LeadsFirst(t, path, n, m)
    ensures ElementParent(t, n) == m
    decreases |path|
  {
    assert t[path[0]].parent == path[1];
    if |path| > 2 {
      assert !t[path[1]].element;
      LeadsUp(t, path[1..], path[1], m);
    }
  }

  lemma {:induction false} AboveLeads(t: Tree, a: int, n: int) returns (path: seq<int>)
    requires WellFormed(t) && 0 <= n < |t| && Above(t, a, n)
    ensures Leads(t, path, n, a)
    decreases n
  {
    var p := ElementParent(t, n);
    path := UpLeads(t, n);
    if a != p {
      var rest := AboveLeads(t, a, p);
      path := Joined(t, path, n, p, rest, a);
    }
  }

  lemma {:induction false} Joined(t: Tree, lower: seq<int>, n: int, p: int, upper: seq<int>, a: int)
    returns (path: seq<int>)
    requires Leads(t, lower, n, p) && Leads(t, upper, p, a)
    ensures Leads(t, path, n, a)
  {
    path := lower + upper[1..];
    var last := |lower| - 1;
    forall k | 0 <= k < |path| - 1
      ensures t[path[k]].parent == path[k + 1]
    {
      if k >= last {
        assert path[k] == upper[k - last] && path[k + 1] == upper[k + 1 - last];
      }
    }
  }

  lemma {:induction false} LeadsAbove(t: Tree, path: seq<int>, n: int, a: int)
    requires WellFormed(t) && Leads(t, path, n, a)
    ensures Above(t, a, n)
    decreases |path|
  {
    assert t[path[0]].parent == path[1];
    if |path| > 2 {
      LeadsAbove(t, path[1..], path[1], a);
    }
  }

  /** From an element that stands to `n` as the combinator asks, the recursion
      goes on to `n`. */
  lemma {:induction false} StepMade(t: Tree, s: Selector, k: nat, m: int, n: int)
    requires WellFormed(t) && s.Shaped() && 0 < k < |s.compounds| && CompoundMatches(t, s.compounds[k], n)
    requires Related(t, s.combinators[k - 1], m, n) && ChainMatches(t, s, k - 1, m)
    ensures ChainMatches(t, s, k, n)
  {
    match s.combinators[k - 1]
    case Descendant =>
      var path :| Leads(t, path, n, m);
      LeadsAbove(t, path, n, m);
      assert 0 <= m < n && Above(t, m, n);
    case Child =>
      var path :| LeadsFirst(t, path, n, m);
      LeadsUp(t, path, n, m);
    case Adjacent =>
      assert PreviousElement(t, m, n);
    case Sibling =>
      assert SameParent(t, m, n);
  }

  lemma {:induction false} StepTaken(t: Tree, s: Selector, k: nat, n: int) returns (m: int)
    requires WellFormed(t) && s.Shaped() && 0 < k < |s.compounds| && ChainMatches(t, s, k, n)
    ensures Related(t, s.combinators[k - 1], m, n) && ChainMatches(t, s, k - 1, m)
  {
    var c := s.combinators[k - 1];
    if c == Descendant {
      m :| 0 <= m < n && Above(t, m, n) && ChainMatches(t, s, k - 1, m);
      var path := AboveLeads(t, m, n);
    } else if c == Child {
      m := ElementParent(t, n);
      var path := UpLeads(t, n);
    } else if c == Adjacent {
      m :| 0 <= m < n && PreviousElement(t, m, n) && ChainMatches(t, s, k - 1, m);
      assert forall k :: m < k < n && SameParent(t, k, n) ==> !IsElement(t, k);
      forall k | m < k < n && t[k].parent == t[n].parent
        ensures !t[k].element
      {
        assert SameParent(t, k, n);
      }
    } else {
      m :| 0 <= m < n && SameParent(t, m, n) && ChainMatches(t, s, k - 1, m);
    }
  }

  /** A selector matches an element exactly when all its compounds can be given
      places, the last of them that element. */
  lemma {:induction false} MatchesPlaced(t: Tree, s: Selector, n: int)
    requires WellFormed(t) && s.Shaped()
    ensures Matches(t, s, n) <==>
            exists places :: Placed(t, s, places) && |places| == |s.compounds| && places[|places| - 1] == n
  {
    if Matches(t, s, n) {
      var places := PlacesOf(t, s, |s.combinators|, n);
    }
    forall places | Placed(t, s, places) && |places| == |s.compounds| && places[|places| - 1] == n
      ensures Matches(t, s, n)
    {
      PlacesMatch(t, s, places);
    }
  }

  lemma {:induction false} PlacesOf(t: Tree, s: Selector, k: nat, n: int) returns (places: seq<int>)
    requires WellFormed(t) && s.Shaped() && k < |s.compounds| && ChainMatches(t, s, k, n)
    ensures Placed(t, s, places) && |places| == k + 1 && places[k] == n
    decreases k
  {
    if k == 0 {
      places := [n];
    } else {
      var m := StepTaken(t, s, k, n);
      var before := PlacesOf(t, s, k - 1, m);
      places := before + [n];
    }
  }

  lemma {:induction false} PlacesMatch(t: Tree, s: Selector, places: seq<int>)
    requires WellFormed(t) && s.Shaped() && Placed(t, s, places)
    ensures ChainMatches(t, s, |places| - 1, places[|places| - 1])
    decreases |places|
  {
    var k := |places| - 1;
    if k > 0 {
      PlacesMatch(t, s, places[..k]);
      assert places[..k][k - 1] == places[k - 1] && Related(t, s.combinators[k - 1], places[k - 1], places[k]);
      assert CompoundMatches(t, s.compounds[k], places[k]);
      StepMade(t, s, k, places[k - 1], places[k]);
    }
  }
}
