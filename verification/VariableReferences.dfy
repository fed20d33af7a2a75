/** The references of a value, and that a substitution looks up nothing else. */
module VariableReferences {
  import opened ValueBlocks
  import opened VariableSubstitution

  predicate IsBlank(t: Token) {
    t.kind == Whitespace || t.kind == Comment
  }

  /** The first significant token from `j` on, or the end. */
  function NextSignificant(ts: seq<Token>, j: nat): (k: nat)
    requires j <= |ts|
    ensures j <= k <= |ts|
    decreases |ts| - j
  {
    if j < |ts| && IsBlank(ts[j]) then NextSignificant(ts, j + 1) else j
  }

  /** What follows the opening of a reference, whatever it is. */
  function RefAt(ts: seq<Token>, decode: string -> string, i: nat): seq<string>
    requires i < |ts|
  {
    var k := NextSignificant(ts, i + 1);
    if IsReference(ts[i]) && k < |ts| then [decode(ts[k].raw)] else []
  }

  function RefsBefore(ts: seq<Token>, decode: string -> string, n: nat): seq<string>
    requires n <= |ts|
  {
    if n == 0 then [] else RefsBefore(ts, decode, n - 1) + RefAt(ts, decode, n - 1)
  }

  /** The names a value refers to, one for each reference in it. */
  function Refs(ts: seq<Token>, decode: string -> string): seq<string> {
    RefsBefore(ts, decode, |ts|)
  }

  method VariableRefs(ts: seq<Token>, decode: string -> string) returns (out: seq<string>)
    ensures out == Refs(ts, decode)
  {
    out := [];
    for i := 0 to |ts|
      invariant out == RefsBefore(ts, decode, i)
    {
      if IsReference(ts[i]) {
        var j := i + 1;
        while j < |ts| && IsBlank(ts[j])
          invariant i < j <= |ts| && NextSignificant(ts, j) == NextSignificant(ts, i + 1)
        {
          j := j + 1;
        }
        if j < |ts| {
          out := out + [decode(ts[j].raw)];
        }
      }
    }
  }

  lemma {:induction false} RefIsListed(ts: seq<Token>, decode: string -> string, i: nat, n: nat)
    requires i < n <= |ts| && RefAt(ts, decode, i) != []
    ensures RefAt(ts, decode, i)[0] in RefsBefore(ts, decode, n)
  {
    if i < n - 1 {
      RefIsListed(ts, decode, i, n - 1);
    }
  }

  lemma {:induction false} FirstSignificant(ts: seq<Token>, lo: nat, hi: nat)
    requires lo <= hi <= |ts| && Significant(ts[lo..hi]) != []
    ensures NextSignificant(ts, lo) < hi && Significant(ts[lo..hi])[0] == ts[NextSignificant(ts, lo)]
    decreases hi - lo
  {
    assert ts[lo..hi][0] == ts[lo] && ts[lo..hi][1..] == ts[lo + 1..hi];
    if IsBlank(ts[lo]) {
      FirstSignificant(ts, lo + 1, hi);
    }
  }

  /** The name a reference is looked up by is among the references. */
  lemma {:induction false} NameIsRef(ts: seq<Token>, decode: string -> string, i: nat)
    requires i < |ts| && IsReference(ts[i]) && IsVariableName(ReferenceName(ts, decode, i))
    ensures ReferenceName(ts, decode, i) in Refs(ts, decode)
  {
    var hi := if CommaOf(ts, i) >= 0 then CommaOf(ts, i) else ClosingOf(ts, i);
    FirstSignificant(ts, i + 1, hi);
    RefIsListed(ts, decode, i, |ts|);
  }

  /** Two environments that differ in their lookups at most. */
  ghost predicate Alike(e: Env, f: Env) {
    e.decode == f.decode && e.trim == f.trim
  }

  ghost predicate Agree(ts: seq<Token>, e: Env, f: Env) {
    Alike(e, f) && forall r :: r in Refs(ts, e.decode) ==> e.lookup(r) == f.lookup(r)
  }

  /** A substitution depends on the values of the references alone. */
  lemma {:induction false} FlatDepends(ts: seq<Token>, e: Env, f: Env, i: nat, limit: nat)
    requires limit <= |ts| && Agree(ts, e, f)
    ensures Flat(ts, e, i, limit) == Flat(ts, f, i, limit)
    decreases if i < |ts| then |ts| - i else 0, 1
  {
    if i < limit {
      if IsReference(ts[i]) {
        ReferenceDepends(ts, e, f, i);
        FlatDepends(ts, e, f, ClosingOf(ts, i) + 1, limit);
      } else {
        FlatDepends(ts, e, f, i + 1, limit);
      }
    }
  }

  lemma {:induction false} ReferenceDepends(ts: seq<Token>, e: Env, f: Env, i: nat)
    requires i < |ts| && IsReference(ts[i]) && Agree(ts, e, f)
    ensures FlatReference(ts, e, i) == FlatReference(ts, f, i)
    decreases |ts| - i, 0
  {
    if CommaOf(ts, i) >= 0 {
      FlatDepends(ts, e, f, CommaOf(ts, i) + 1, ClosingOf(ts, i));
    }
    if IsVariableName(ReferenceName(ts, e.decode, i)) {
      NameIsRef(ts, e.decode, i);
    }
  }
}
