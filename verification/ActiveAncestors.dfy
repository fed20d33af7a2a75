/** The selector-index buckets keyed by some element of the current DFS path,
    kept by reference counts with swap-removal. */
module ActiveAncestors {

  /** One branch of one rule; `sequence` is unique over the whole stylesheet. */
  datatype Ref = Ref(rule: nat, branch: nat, sequence: nat)

  type Bucket = seq<Ref>

  /** A bucket is identified by the sequence number of its first reference. */
  function Identity(b: Bucket): nat
    requires b != []
  {
    b[0].sequence
  }

  function SwapRemoved<T>(xs: seq<T>, at: nat): seq<T>
    requires at < |xs|
  {
    xs[at := xs[|xs| - 1]][..|xs| - 1]
  }

  /** Every listed bucket's position points back at it, and only those. */
  ghost predicate Placed(buckets: seq<Bucket>, positions: seq<nat>) {
    && (forall i :: 0 <= i < |buckets| ==>
          buckets[i] != [] && Identity(buckets[i]) < |positions| && positions[Identity(buckets[i])] == i + 1)
    && (forall s :: 0 <= s < |positions| ==>
          positions[s] == 0 || (positions[s] <= |buckets| && Identity(buckets[positions[s] - 1]) == s))
  }

  lemma {:induction false} AppendPlaced(buckets: seq<Bucket>, positions: seq<nat>, b: Bucket)
    requires Placed(buckets, positions) && b != [] && Identity(b) < |positions| && positions[Identity(b)] == 0
    ensures Placed(buckets + [b], positions[Identity(b) := |buckets| + 1])
  {
  }

  lemma {:induction false} SwapRemovedPlaced(buckets: seq<Bucket>, positions: seq<nat>, at: nat)
    requires Placed(buckets, positions) && at < |buckets|
    ensures var last := |buckets| - 1;
            var moved := if at != last then positions[Identity(buckets[last]) := at + 1] else positions;
            Placed(SwapRemoved(buckets, at), moved[Identity(buckets[at]) := 0])
  {
    var last := |buckets| - 1;
    assert at != last ==> Identity(buckets[last]) != Identity(buckets[at]);
  }

  /** `active` counts, per bucket identity, the contributors on the path. */
  ghost predicate Counted(counts: seq<nat>, positions: seq<nat>, active: multiset<nat>) {
    && |counts| == |positions|
    && (forall s :: s in active ==> s < |counts|)
    && (forall s :: 0 <= s < |counts| ==> counts[s] == active[s])
    && (forall s :: 0 <= s < |counts| ==> (counts[s] == 0 <==> positions[s] == 0))
  }

  lemma {:induction false} LastRemovedCounted(counts: seq<nat>, positions: seq<nat>, active: multiset<nat>, key: nat,
                                              last: nat, at: nat, moved: seq<nat>)
    requires Counted(counts, positions, active) && key < |counts| && counts[key] == 1 && at > 0
    requires last < |positions| && positions[last] != 0
    requires moved == positions || moved == positions[last := at]
    ensures Counted(counts[key := 0], moved[key := 0], active - multiset{key})
  {
  }

  /** A snapshot of the three fields below, and the value one step gives. */
  datatype Active = Active(buckets: seq<Bucket>, counts: seq<nat>, positions: seq<nat>) {
    /** The list holds exactly the identities in `active`, each once, with
        their multiplicities as counts. */
    ghost predicate Represents(active: multiset<nat>) {
      Counted(counts, positions, active) && Placed(buckets, positions)
    }

    /** The bucket may be added or removed: its identity is within the tables. */
    predicate Admits(bucket: Bucket) {
      |counts| == |positions| && (bucket == [] || Identity(bucket) < |counts|)
    }

    function Added(bucket: Bucket): Active
      requires Admits(bucket)
    {
      if bucket == [] then this else
        var key := Identity(bucket);
        var grown := counts[key := counts[key] + 1];
        if counts[key] == 0
        then Active(buckets + [bucket], grown, positions[key := |buckets| + 1])
        else Active(buckets, grown, positions)
    }

    function Removed(bucket: Bucket): Active
      requires Admits(bucket)
      requires bucket != [] && counts[Identity(bucket)] == 1 ==>
                 && 0 < positions[Identity(bucket)] <= |buckets|
                 && buckets[|buckets| - 1] != [] && Identity(buckets[|buckets| - 1]) < |positions|
    {
      if bucket == [] || counts[Identity(bucket)] == 0 then this else
        var key := Identity(bucket);
        var shrunk := counts[key := counts[key] - 1];
        if counts[key] > 1 then Active(buckets, shrunk, positions) else
          var at, last := positions[key] - 1, |buckets| - 1;
          var moved := if at != last then positions[Identity(buckets[last]) := at + 1] else positions;
          Active(SwapRemoved(buckets, at), shrunk, moved[key := 0])
    }

    /** Adding counts one more contributor, whatever was active before. */
    lemma {:induction false} AddedRepresents(bucket: Bucket, active: multiset<nat>)
      requires Represents(active) && Admits(bucket)
      ensures Added(bucket).Represents(if bucket == [] then active else active + multiset{Identity(bucket)})
      ensures |Added(bucket).counts| == |counts|
    {
      if bucket != [] && counts[Identity(bucket)] == 0 {
        AppendPlaced(buckets, positions, bucket);
      }
    }

    lemma {:induction false} Removable(bucket: Bucket, active: multiset<nat>)
      requires Represents(active) && Admits(bucket)
      ensures Removed.requires(bucket)
    {
      if bucket != [] && counts[Identity(bucket)] == 1 {
        assert positions[Identity(bucket)] != 0;
      }
    }

    /** Removing counts one contributor less; the last one takes the bucket out. */
    lemma {:induction false} RemovedRepresents(bucket: Bucket, active: multiset<nat>)
      requires Represents(active) && Admits(bucket)
      requires Removed.requires(bucket)
      ensures Removed(bucket).Represents(if bucket == [] then active else active - multiset{Identity(bucket)})
      ensures |Removed(bucket).counts| == |counts|
    {
      if bucket != [] && counts[Identity(bucket)] == 1 {
        LastRemovedRepresents(bucket, active);
      } else if bucket != [] && counts[Identity(bucket)] == 0 {
        assert active - multiset{Identity(bucket)} == active;
      }
    }

    lemma {:induction false} LastRemovedRepresents(bucket: Bucket, active: multiset<nat>)
      requires Represents(active) && Admits(bucket) && bucket != [] && counts[Identity(bucket)] == 1
      requires Removed.requires(bucket)
      ensures Removed(bucket).Represents(active - multiset{Identity(bucket)})
    {
      var key, at, last := Identity(bucket), positions[Identity(bucket)] - 1, |buckets| - 1;
      SwapRemovedPlaced(buckets, positions, at);
      var moved := if at != last then positions[Identity(buckets[last]) := at + 1] else positions;
      assert Identity(buckets[at]) == key && positions[Identity(buckets[last])] == last + 1;
      LastRemovedCounted(counts, positions, active, key, Identity(buckets[last]), at + 1, moved);
      assert Removed(bucket) == Active(SwapRemoved(buckets, at), counts[key := 0], moved[key := 0]);
    }

    lemma {:induction false} ListedIsActive(i: nat, active: multiset<nat>)
      requires Represents(active) && i < |buckets|
      ensures Identity(buckets[i]) in active
    {
      assert positions[Identity(buckets[i])] == i + 1;
    }

    /** With no contributor left the list is empty. */
    lemma {:induction false} InactiveIsEmpty()
      requires Represents(multiset{})
      ensures buckets == []
    {
      if |buckets| > 0 {
        ListedIsActive(0, multiset{});
      }
    }

    /** The listed identities are exactly the active ones, without repetition. */
    lemma {:induction false} ListIsSupport(active: multiset<nat>)
      requires Represents(active)
      ensures forall s :: s in active <==> exists i ::
                0 <= i < |buckets| && buckets[i] != [] && Identity(buckets[i]) == s
      ensures forall i, j :: 0 <= i < j < |buckets| ==> Identity(buckets[i]) != Identity(buckets[j])
    {
      forall s | s in active
        ensures exists i :: 0 <= i < |buckets| && buckets[i] != [] && Identity(buckets[i]) == s
      {
        assert counts[s] == active[s];
        assert buckets[positions[s] - 1] != [];
      }
    }
  }

  class ActiveBuckets {
    var buckets: seq<Bucket>
    var counts: seq<nat>
    /** Position in `buckets` plus one; zero means inactive. */
    var positions: seq<nat>

    ghost function State(): Active
      reads this
    {
      Active(buckets, counts, positions)
    }

    constructor ()
      ensures State() == Active([], [], [])
    {
      buckets, counts, positions := [], [], [];
    }

    method Reset(selectorCount: nat)
      modifies this
      ensures State().Represents(multiset{}) && |counts| >= selectorCount && buckets == []
    {
      if |counts| < selectorCount {
        counts := seq(selectorCount, _ => 0);
        positions := seq(selectorCount, _ => 0);
      } else {
        counts := seq(|counts|, _ => 0);
        positions := seq(|counts|, _ => 0);
      }
      buckets := [];
    }

    method Add(bucket: Bucket)
      requires State().Admits(bucket)
      modifies this
      ensures State() == old(State()).Added(bucket)
    {
      if bucket == [] {
        return;
      }
      var key := Identity(bucket);
      if counts[key] == 0 {
        positions := positions[key := |buckets| + 1];
        buckets := buckets + [bucket];
      }
      counts := counts[key := counts[key] + 1];
    }

    method Remove(bucket: Bucket)
      requires State().Admits(bucket) && State().Removed.requires(bucket)
      modifies this
      ensures State() == old(State()).Removed(bucket)
    {
      if bucket == [] {
        return;
      }
      var key := Identity(bucket);
      if counts[key] == 0 {
        return;
      }
      counts := counts[key := counts[key] - 1];
      if counts[key] != 0 {
        return;
      }
      var position := positions[key] - 1;
      var last := |buckets| - 1;
      if position != last {
        var moved := buckets[last];
        buckets := buckets[position := moved];
        positions := positions[Identity(moved) := position + 1];
      }
      buckets := buckets[..last];
      positions := positions[key := 0];
    }
  }
}
