/** The parsed document: a parent-linked node table in which a parent always
    precedes its children, so that index order is document order among siblings.
    Node 0 is the document root. */
module Documents {

  datatype Attribute = Attribute(key: string, val: string)

  datatype Node = Node(parent: int, element: bool, namespace: string, data: string, attrs: seq<Attribute>)

  type Tree = seq<Node>

  predicate WellFormed(t: Tree) {
    forall i :: 0 <= i < |t| ==> -1 <= t[i].parent < i
  }

  /** The parser keeps one attribute per name, and only the document node and
      elements have children. */
  predicate Parsed(t: Tree) {
    && WellFormed(t)
    && (forall i :: 0 < i < |t| ==> 0 <= t[i].parent)
    && (forall i :: 0 < i < |t| ==> t[i].parent == 0 || t[t[i].parent].element)
    && (forall i :: 0 <= i < |t| ==> DistinctKeys(t[i].attrs))
  }

  predicate DistinctKeys(attrs: seq<Attribute>) {
    forall i, j :: 0 <= i < j < |attrs| ==> attrs[i].key != attrs[j].key
  }

  predicate IsElement(t: Tree, n: int) {
    0 <= n < |t| && t[n].element
  }

  /** The nearest element at or above `n`, or -1. */
  function Up(t: Tree, n: int): (e: int)
    requires WellFormed(t) && -1 <= n < |t|
    ensures -1 <= e <= n
    ensures e >= 0 ==> IsElement(t, e)
    decreases n
  {
    if n < 0 then -1 else if t[n].element then n else Up(t, t[n].parent)
  }

  /** The nearest element strictly above `n`, or -1. */
  function ElementParent(t: Tree, n: int): (e: int)
    requires WellFormed(t) && 0 <= n < |t|
    ensures -1 <= e < n
    ensures e >= 0 ==> IsElement(t, e)
  {
    Up(t, t[n].parent)
  }

  /** `a` is a proper ancestor element of `n`. */
  predicate Above(t: Tree, a: int, n: int)
    requires WellFormed(t) && 0 <= n < |t|
    decreases n
  {
    0 <= a < n &&
    var p := ElementParent(t, n);
    p >= 0 && (a == p || Above(t, a, p))
  }

  predicate SameParent(t: Tree, m: int, n: int)
    requires 0 <= n < |t|
  {
    0 <= m < |t| && t[m].parent == t[n].parent
  }

  /** `m` is the element sibling immediately before `n`, other nodes ignored. */
  predicate PreviousElement(t: Tree, m: int, n: int)
    requires 0 <= n < |t|
  {
    && m < n && SameParent(t, m, n) && IsElement(t, m)
    && forall k :: m < k < n && SameParent(t, k, n) ==> !IsElement(t, k)
  }

  predicate HasElementChild(t: Tree, n: int) {
    exists c :: 0 <= c < |t| && t[c].parent == n && t[c].element
  }

  predicate IsCssSpace(c: char) {
    c == ' ' || c == '\t' || c == '\r' || c == '\n' || c == '\U{000C}'
  }

  /** `token` is one of the maximal space-free words of `value`. */
  predicate HasToken(value: string, token: string) {
    exists i, j :: 0 <= i <= j <= |value| && TokenAt(value, i, j) && value[i..j] == token
  }

  predicate TokenAt(value: string, i: int, j: int)
    requires 0 <= i <= j <= |value|
  {
    && i < j
    && (forall k :: i <= k < j ==> !IsCssSpace(value[k]))
    && (i == 0 || IsCssSpace(value[i - 1]))
    && (j == |value| || IsCssSpace(value[j]))
  }

  function AsciiLower(s: string): string {
    if s == "" then "" else
      [if 'A' <= s[0] <= 'Z' then (s[0] as int + 32) as char else s[0]] + AsciiLower(s[1..])
  }
}
