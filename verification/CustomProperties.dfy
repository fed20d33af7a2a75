/** Custom properties: marking dependency cycles, and resolving the rest. */
module CustomProperties {
  datatype Status = ValueResolved | ValueInvalid | ValueUnsupported

  datatype VariableValue = VariableValue(text: string, status: Status)

  const INVALID := VariableValue("", ValueInvalid)
  const UNSUPPORTED := VariableValue("", ValueUnsupported)

  const MAX_DEPTH := 256

  /** The references of each usable definition, in order. */
  type Dependencies = map<string, seq<string>>

  predicate Edge(deps: Dependencies, a: string, b: string) {
    a in deps && b in deps[a] && b in deps
  }

  /** Consecutive names depend on each other. */
  predicate Chain(deps: Dependencies, names: seq<string>) {
    forall i, j :: 0 <= i < |names| && j == i + 1 < |names| ==> Edge(deps, names[i], names[j])
  }

  /** A chain that comes back to where it began. */
  predicate Cycle(deps: Dependencies, names: seq<string>) {
    |names| >= 2 && names[0] == names[|names| - 1] && Chain(deps, names)
  }

  ghost predicate OnCycle(deps: Dependencies, name: string) {
    exists names :: Cycle(deps, names) && name in names
  }

  predicate Repeats(names: seq<string>) {
    exists i, j :: 0 <= i < j < |names| && names[i] == names[j]
  }

  /** Distinct names that refer to one another in turn, as many as the search may
      have open at once. */
  ghost predicate Deep(deps: Dependencies, names: seq<string>) {
    Chain(deps, names) && !Repeats(names) && |names| >= MAX_DEPTH
  }

  ghost predicate TooDeep(deps: Dependencies) {
    exists names :: Deep(deps, names)
  }

  /** A back edge closes a cycle through the rest of the path. */
  lemma {:induction false} BackEdge(deps: Dependencies, path: seq<string>, i: nat)
    requires Chain(deps, path) && i < |path| && Edge(deps, path[|path| - 1], path[i])
    ensures forall k :: i <= k < |path| ==> OnCycle(deps, path[k])
  {
    var cycle := path[i..] + [path[i]];
    assert forall k :: 0 <= k < |cycle| - 1 ==> Edge(deps, cycle[k], cycle[k + 1]);
    forall k | i <= k < |path|
      ensures OnCycle(deps, path[k])
    {
      assert cycle[k - i] == path[k];
      assert Cycle(deps, cycle) && path[k] in cycle;
    }
  }

  /** Every edge out of a finished name leads to one finished earlier, or joins
      two marked names. */
  ghost predicate Explained(deps: Dependencies, finished: seq<string>, cyclic: set<string>) {
    forall i, c :: 0 <= i < |finished| && Edge(deps, finished[i], c) ==>
      Earlier(finished, i, c) || (finished[i] in cyclic && c in cyclic)
  }

  predicate Earlier(names: seq<string>, i: nat, c: string) {
    exists j :: 0 <= j < i && j < |names| && names[j] == c
  }

  /** So no cycle among finished names escapes without a mark. */
  lemma {:induction false} CycleIsMarked(deps: Dependencies, finished: seq<string>, cyclic: set<string>,
                                         names: seq<string>)
    requires Explained(deps, finished, cyclic) && Cycle(deps, names)
    requires forall k :: 0 <= k < |names| ==> names[k] in finished
    ensures exists k :: 0 <= k < |names| && names[k] in cyclic
  {
    if forall k :: 0 <= k < |names| ==> names[k] !in cyclic {
      var i := |finished|;
      DescendForever(deps, finished, cyclic, names, 0, i);
    }
  }

  /** Unmarked names along a chain were finished in descending order. */
  lemma {:induction false} DescendForever(deps: Dependencies, finished: seq<string>, cyclic: set<string>,
                                          names: seq<string>, k: nat, i: nat)
    requires Explained(deps, finished, cyclic) && Cycle(deps, names) && k < |names|
    requires forall k :: 0 <= k < |names| ==> names[k] !in cyclic
    requires i <= |finished| && Earlier(finished, i, names[k])
    ensures false
    decreases i
  {
    var at :| 0 <= at < i && finished[at] == names[k];
    var next := if k == |names| - 1 then 1 else k + 1;
    assert Edge(deps, names[next - 1], names[next]) && names[next - 1] == names[k];
    DescendForever(deps, finished, cyclic, names, next, at);
  }

  datatype Visit = Entered | Done

  /** A snapshot of the search; `finished` lists names as their visits ended. */
  datatype Search = Search(states: map<string, Visit>, path: seq<string>, cyclic: set<string>, exceeded: bool,
                           finished: seq<string>) {
    /** Stated so that it unfolds only where a proof names `SoundFor`. */
    ghost predicate Sound(deps: Dependencies) {
      forall d {:trigger SoundFor(d)} :: d == deps ==> SoundFor(d)
    }

    ghost predicate SoundFor(deps: Dependencies) {
      && Chain(deps, path) && !Repeats(path)
      && (forall n :: n in states && states[n] == Entered <==> n in path)
      && (forall n :: n in states && states[n] == Done <==> n in finished)
      && (forall n {:trigger OnCycle(deps, n)} :: n in cyclic ==> OnCycle(deps, n))
      && (!exceeded ==> Explained(deps, finished, cyclic))
      && (exceeded ==> TooDeep(deps))
    }

    function Pushed(n: string): Search {
      this.(states := states[n := Entered], path := path + [n])
    }

    function Popped(n: string): Search
      requires path != []
    {
      this.(states := states[n := Done], path := path[..|path| - 1], finished := finished + [n])
    }

    /** Every reference of `n` up to `k` is finished, or marked together with `n`. */
    ghost predicate Handled(deps: Dependencies, n: string, k: nat)
      requires n in deps ==> k <= |deps[n]|
    {
      n in deps ==> forall j :: 0 <= j < k && deps[n][j] in deps ==>
          deps[n][j] in finished || (n in cyclic && deps[n][j] in cyclic)
    }

    lemma {:induction false} PushedSound(deps: Dependencies, n: string)
      requires Sound(deps) && n !in states && (path == [] || Edge(deps, path[|path| - 1], n))
      ensures Pushed(n).Sound(deps)
    {
      assert SoundFor(deps);
      assert n !in path;
      var more := path + [n];
      assert forall m :: m in more <==> m in path || m == n;
      assert forall i, j :: 0 <= i < j < |more| ==> more[i] != more[j];
    }

    lemma {:induction false} PoppedSound(deps: Dependencies, n: string)
      requires Sound(deps) && path != [] && path[|path| - 1] == n
      requires !exceeded ==> Handled(deps, n, if n in deps then |deps[n]| else 0)
      ensures Popped(n).Sound(deps)
    {
      assert SoundFor(deps);
      var rest := path[..|path| - 1];
      assert path == rest + [n];
      assert n !in rest;
      assert forall m :: m in path <==> m in rest || m == n;
      assert forall i, j :: 0 <= i < j < |rest| ==> path[i] != path[j];
      if !exceeded {
        FinishExplained(deps, n);
      }
    }

    lemma {:induction false} FinishExplained(deps: Dependencies, n: string)
      requires Explained(deps, finished, cyclic) && Handled(deps, n, if n in deps then |deps[n]| else 0)
      ensures Explained(deps, finished + [n], cyclic)
    {
      var more := finished + [n];
      forall i, c | 0 <= i < |more| && Edge(deps, more[i], c)
        ensures Earlier(more, i, c) || (more[i] in cyclic && c in cyclic)
      {
        if i < |finished| {
          if Earlier(finished, i, c) {
            var j :| 0 <= j < i && finished[j] == c;
            assert more[j] == c;
          }
        } else {
          var j :| 0 <= j < |deps[n]| && deps[n][j] == c;
          if c in finished {
            var k :| 0 <= k < |finished| && finished[k] == c;
            assert more[k] == c;
          }
        }
      }
    }

    lemma {:induction false} MarkedSound(deps: Dependencies, i: nat)
      requires Sound(deps) && i < |path| && Edge(deps, path[|path| - 1], path[i])
      ensures this.(cyclic := cyclic + (set y | y in path[i..])).Sound(deps)
    {
      assert SoundFor(deps);
      BackEdge(deps, path, i);
      forall y | y in path[i..]
        ensures OnCycle(deps, y)
      {
        var k :| 0 <= k < |path[i..]| && path[i..][k] == y;
        assert path[i + k] == y;
      }
    }
  }

  /** The depth-first search over the definitions. */
  class CycleFinder {
    const deps: Dependencies
    var states: map<string, Visit>
    var path: seq<string>
    var cyclic: set<string>
    var depthExceeded: bool
    ghost var finished: seq<string>

    ghost function State(): Search
      reads this
    {
      Search(states, path, cyclic, depthExceeded, finished)
    }

    constructor (deps: Dependencies)
      ensures State() == Search(map[], [], {}, false, []) && this.deps == deps
    {
      this.deps := deps;
      states, path, cyclic, depthExceeded, finished := map[], [], {}, false, [];
    }

    method VisitName(n: string, depth: nat)
      requires State().Sound(deps) && (path == [] || Edge(deps, path[|path| - 1], n)) && depth == |path| <= MAX_DEPTH
      modifies this
      ensures State().Sound(deps) && path == old(path) && old(finished) <= finished && old(cyclic) <= cyclic
      ensures old(depthExceeded) ==> depthExceeded
      ensures !depthExceeded ==> n in finished || (n in path && n in cyclic && path[|path| - 1] in cyclic)
      decreases MAX_DEPTH - depth, 2
    {
      assert State().SoundFor(deps);
      if depth >= MAX_DEPTH {
        assert Deep(deps, path);
        depthExceeded := true;
        assert State().SoundFor(deps);
        return;
      }
      if n in states && states[n] == Done {
        return;
      }
      if n in states && states[n] == Entered {
        MarkCycle(n);
        return;
      }
      VisitNew(n, depth);
    }

    /** Enter a name, visit its references and finish it. */
    method VisitNew(n: string, depth: nat)
      requires State().Sound(deps) && n !in states && (path == [] || Edge(deps, path[|path| - 1], n))
      requires depth == |path| < MAX_DEPTH
      modifies this
      ensures State().Sound(deps) && path == old(path) && old(finished) <= finished && old(cyclic) <= cyclic &&
              n in finished
      ensures old(depthExceeded) ==> depthExceeded
      decreases MAX_DEPTH - depth, 1
    {
      EnterName(n);
      VisitReferences(n, depth);
      LeaveName(n);
      assert path == old(path);
    }

    method EnterName(n: string)
      requires State().Sound(deps) && n !in states && (path == [] || Edge(deps, path[|path| - 1], n))
      modifies this`states, this`path
      ensures State().Sound(deps) && path == old(path) + [n]
    {
      State().PushedSound(deps, n);
      states := states[n := Entered];
      path := path + [n];
    }

    method LeaveName(n: string)
      requires State().Sound(deps) && path != [] && path[|path| - 1] == n
      requires !depthExceeded ==> State().Handled(deps, n, if n in deps then |deps[n]| else 0)
      modifies this`states, this`path, this`finished
      ensures State().Sound(deps) && path == old(path[..|path| - 1]) && finished == old(finished) + [n]
    {
      State().PoppedSound(deps, n);
      path := path[..|path| - 1];
      states := states[n := Done];
      finished := finished + [n];
    }

    /** Visit the references of the name at the end of the path. */
    method VisitReferences(n: string, depth: nat)
      requires State().Sound(deps) && path != [] && path[|path| - 1] == n && depth + 1 == |path| <= MAX_DEPTH
      modifies this
      ensures State().Sound(deps) && path == old(path) && old(finished) <= finished && old(cyclic) <= cyclic
      ensures old(depthExceeded) ==> depthExceeded
      ensures !depthExceeded ==> State().Handled(deps, n, if n in deps then |deps[n]| else 0)
      decreases MAX_DEPTH - depth, 0
    {
      if n !in deps {
        return;
      }
      for k := 0 to |deps[n]|
        invariant State().Sound(deps) && path == old(path) && old(finished) <= finished && old(cyclic) <= cyclic
        invariant old(depthExceeded) ==> depthExceeded
        invariant !depthExceeded ==> State().Handled(deps, n, k)
      {
        ghost var before := State();
        if deps[n][k] in deps {
          VisitName(deps[n][k], depth + 1);
          assert forall m :: m in before.finished ==> m in finished;
        }
      }
    }

    /** Mark the part of the path from `n` on. */
    method MarkCycle(n: string)
      requires State().Sound(deps) && n in path && Edge(deps, path[|path| - 1], n)
      modifies this`cyclic
      ensures State().Sound(deps) && old(cyclic) <= cyclic && n in cyclic && path[|path| - 1] in cyclic
    {
      var i := 0;
      while path[i] != n
        invariant 0 <= i < |path| && n in path[i..]
        decreases |path| - i
      {
        i := i + 1;
      }
      State().MarkedSound(deps, i);
      assert path[i..][0] == n && path[i..][|path| - 1 - i] == path[|path| - 1];
      cyclic := cyclic + (set y | y in path[i..]);
    }

    /** Visit every definition. Marked names lie on cycles, and unless the depth
        limit stopped the search every cycle has a marked name. The limit stops it
        only where references really are that deep. */
    method MarkCycles(ordered: seq<string>)
      requires State() == Search(map[], [], {}, false, [])
      requires forall n :: n in deps ==> n in ordered
      modifies this
      ensures forall n :: n in cyclic ==> OnCycle(deps, n)
      ensures !depthExceeded ==> Broken(deps, cyclic)
      ensures depthExceeded ==> TooDeep(deps)
    {
      for i := 0 to |ordered|
        invariant State().Sound(deps) && path == [] && !depthExceeded
        invariant forall j :: 0 <= j < i ==> ordered[j] in finished
      {
        ghost var before := finished;
        VisitName(ordered[i], 0);
        if depthExceeded {
          assert State().SoundFor(deps);
          return;
        }
        assert forall m :: m in before ==> m in finished;
      }
      assert State().SoundFor(deps);
      forall names | Cycle(deps, names)
        ensures exists k :: 0 <= k < |names| && names[k] in cyclic
      {
        CycleNames(deps, names);
        CycleIsMarked(deps, finished, cyclic, names);
      }
    }
  }

  /** Every cycle has a marked name. */
  ghost predicate Broken(deps: Dependencies, cyclic: set<string>) {
    forall names :: Cycle(deps, names) ==> exists k :: 0 <= k < |names| && names[k] in cyclic
  }

  lemma {:induction false} CycleNames(deps: Dependencies, names: seq<string>)
    requires Cycle(deps, names)
    ensures forall k :: 0 <= k < |names| ==> names[k] in deps
  {
    forall k | 0 <= k < |names|
      ensures names[k] in deps
    {
      if k > 0 {
        assert Edge(deps, names[k - 1], names[k]);
      } else {
        assert Edge(deps, names[0], names[1]);
      }
    }
  }
}
