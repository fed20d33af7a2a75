/** Evaluating media conditions at a width, and the finite set of widths that
    stands in for every width. */
module ViewingCases {
  import opened Media

  const DEFAULT_WIDTH := 1024.0

  type FrameState = (MediaState, MediaState)

  /* One condition. */

  /** A condition's state in the light and in the dark scheme. */
  method States(c: Condition, width: real, fallback: bool) returns (light: MediaState, dark: MediaState)
    ensures light == ConditionState(c, width, fallback, false)
    ensures dark == ConditionState(c, width, fallback, true)
  {
    light, dark := No, No;
    for i := 0 to |c|
      invariant light == ConditionState(c[..i], width, fallback, false)
      invariant dark == ConditionState(c[..i], width, fallback, true)
    {
      var a := c[i];
      var ok := !a.never;
      for j := 0 to |a.bounds|
        invariant ok == (!a.never && (fallback || MeetsAll(a.bounds[..j], width)))
      {
        var b := a.bounds[j];
        assert a.bounds[..j + 1] == a.bounds[..j] + [b];
        if !fallback && ((b.min && width < b.value) || (!b.min && width > b.value)) {
          ok := false;
        }
      }
      assert a.bounds[..|a.bounds|] == a.bounds;
      OneMoreAlternative(c, i, width, fallback);
      if !ok {
        continue;
      }
      var state := if a.unknown || (fallback && |a.bounds| > 0) then Unknown else Yes;
      if a.light {
        light := BetterOf(light, state);
      }
      if a.dark {
        dark := BetterOf(dark, state);
      }
    }
    assert c[..|c|] == c;
  }

  function BetterOf(sofar: MediaState, state: MediaState): MediaState {
    if state == Yes then Yes else if sofar != Yes then Unknown else sofar
  }

  lemma {:induction false} OneMoreAlternative(c: Condition, i: nat, width: real, fallback: bool)
    requires i < |c|
    ensures forall dark :: ConditionState(c[..i + 1], width, fallback, dark) ==
              if !Applies(c[i], width, fallback, dark) then ConditionState(c[..i], width, fallback, dark)
              else BetterOf(ConditionState(c[..i], width, fallback, dark),
                            if Certain(c[i], fallback) then Yes else Unknown)
  {
    var xs, ys := c[..i], c[..i + 1];
    forall dark
      ensures ConditionState(ys, width, fallback, dark) ==
              if !Applies(c[i], width, fallback, dark) then ConditionState(xs, width, fallback, dark)
              else BetterOf(ConditionState(xs, width, fallback, dark), if Certain(c[i], fallback) then Yes else Unknown)
    {
      assert ys[i] == c[i];
      assert forall j :: 0 <= j < i ==> xs[j] == ys[j];
    }
  }

  /* Chains of conditions, cached. */

  ghost function FrameStateOf(frames: Frames, f: int, width: real, fallback: bool): FrameState
    requires Linked(frames) && IsFrame(frames, f)
  {
    (ChainState(frames, f, width, fallback, false), ChainState(frames, f, width, fallback, true))
  }

  /** The states of the frames met so far at one width. */
  class FrameCache {
    var states: map<int, FrameState>

    constructor ()
      ensures states == map[]
    {
      states := map[];
    }

    ghost predicate Sound(frames: Frames, width: real, fallback: bool)
      requires Linked(frames)
      reads this
    {
      forall f :: f in states ==> 0 <= f < |frames| && states[f] == FrameStateOf(frames, f, width, fallback)
    }
  }

  /** Derive a frame from its parent, through the cache when there is one. */
  method EvaluateConditionFrame(frames: Frames, f: int, width: real, fallback: bool, cache: FrameCache?)
    returns (light: MediaState, dark: MediaState)
    requires Linked(frames) && IsFrame(frames, f)
    requires cache != null ==> cache.Sound(frames, width, fallback)
    modifies cache
    ensures (light, dark) == FrameStateOf(frames, f, width, fallback)
    ensures cache != null ==> cache.Sound(frames, width, fallback)
    decreases f
  {
    if f < 0 {
      return Yes, Yes;
    }
    if cache != null && f in cache.states {
      return cache.states[f].0, cache.states[f].1;
    }
    light, dark := EvaluateConditionFrame(frames, frames[f].parent, width, fallback, cache);
    var frameLight, frameDark := States(frames[f].condition, width, fallback);
    light := IntersectMediaState(light, frameLight);
    dark := IntersectMediaState(dark, frameDark);
    if cache != null {
      cache.states := cache.states[f := (light, dark)];
    }
  }

  predicate AreFrames(frames: Frames, groups: seq<int>) {
    forall i :: 0 <= i < |groups| ==> IsFrame(frames, groups[i])
  }

  ghost function GroupState(frames: Frames, f: int, width: real, fallback: bool): MediaState
    requires Linked(frames) && IsFrame(frames, f)
  {
    CombinedMediaState(ChainState(frames, f, width, fallback, false), ChainState(frames, f, width, fallback, true))
  }

  /** Every group's state at one width, each evaluated afresh. */
  ghost function GroupStates(frames: Frames, groups: seq<int>, width: real, fallback: bool): (states: seq<MediaState>)
    requires Linked(frames) && AreFrames(frames, groups)
    ensures |states| == |groups|
  {
    seq(|groups|, i requires 0 <= i < |groups| => GroupState(frames, groups[i], width, fallback))
  }

  method EvaluateGroups(frames: Frames, groups: seq<int>, width: real, fallback: bool) returns (states: seq<MediaState>)
    requires Linked(frames) && AreFrames(frames, groups)
    ensures states == GroupStates(frames, groups, width, fallback)
  {
    var cache := new FrameCache();
    states := [];
    for i := 0 to |groups|
      invariant cache.Sound(frames, width, fallback)
      invariant states == GroupStates(frames, groups, width, fallback)[..i]
    {
      var light, dark := EvaluateConditionFrame(frames, groups[i], width, fallback, cache);
      states := states + [CombinedMediaState(light, dark)];
    }
  }

  /* Widths. */

  /** `c` stands on the same side of every value as `w`. */
  predicate SameSide(values: seq<real>, w: real, c: real) {
    forall v :: v in values ==> (w < v <==> c < v) && (w > v <==> c > v)
  }

  ghost predicate BoundOf(frames: Frames, f: int, v: real)
    requires 0 <= f < |frames|
  {
    exists a, b :: a in frames[f].condition && b in a.bounds && b.value == v
  }

  ghost predicate BoundsOf(frames: Frames, f: int, values: seq<real>)
    requires 0 <= f < |frames|
  {
    forall v :: BoundOf(frames, f, v) ==> v in values
  }

  /** `f` is `g` or an enclosing frame of it. */
  ghost predicate OnChain(frames: Frames, g: int, f: int)
    requires Linked(frames) && IsFrame(frames, g)
    decreases g
  {
    g >= 0 && (f == g || OnChain(frames, frames[g].parent, f))
  }

  /** Every bound a group depends on is among `values`. */
  ghost predicate Collected(frames: Frames, groups: seq<int>, values: seq<real>)
    requires Linked(frames) && AreFrames(frames, groups)
  {
    forall i, f :: 0 <= i < |groups| && 0 <= f < |frames| && OnChain(frames, groups[i], f) ==>
        BoundsOf(frames, f, values)
  }

  lemma {:induction false} SameSideChain(frames: Frames, g: int, values: seq<real>, w: real, c: real, dark: bool)
    requires Linked(frames) && IsFrame(frames, g) && SameSide(values, w, c)
    requires forall f :: 0 <= f < |frames| && OnChain(frames, g, f) ==> BoundsOf(frames, f, values)
    ensures ChainState(frames, g, w, false, dark) == ChainState(frames, g, c, false, dark)
    decreases g
  {
    if g >= 0 {
      var condition := frames[g].condition;
      assert OnChain(frames, g, g) && BoundsOf(frames, g, values);
      forall i | 0 <= i < |condition|
        ensures Applies(condition[i], w, false, dark) == Applies(condition[i], c, false, dark)
      {
        forall j | 0 <= j < |condition[i].bounds|
          ensures Meets(condition[i].bounds[j], w) == Meets(condition[i].bounds[j], c)
        {
          assert condition[i] in condition && condition[i].bounds[j] in condition[i].bounds;
          assert BoundOf(frames, g, condition[i].bounds[j].value);
        }
      }
      forall f | 0 <= f < |frames| && OnChain(frames, frames[g].parent, f)
        ensures BoundsOf(frames, f, values)
      {
        assert OnChain(frames, g, f);
      }
      SameSideChain(frames, frames[g].parent, values, w, c, dark);
    }
  }

  /** Widths on the same side of every collected bound have the same states. */
  lemma {:induction false} SameSideStates(frames: Frames, groups: seq<int>, values: seq<real>, w: real, c: real)
    requires Linked(frames) && AreFrames(frames, groups) && Collected(frames, groups, values) && SameSide(values, w, c)
    ensures GroupStates(frames, groups, w, false) == GroupStates(frames, groups, c, false)
  {
    forall i | 0 <= i < |groups|
      ensures GroupState(frames, groups[i], w, false) == GroupState(frames, groups[i], c, false)
    {
      SameSideChain(frames, groups[i], values, w, c, false);
      SameSideChain(frames, groups[i], values, w, c, true);
    }
  }

  lemma {:induction false} CollectedSame(frames: Frames, groups: seq<int>, xs: seq<real>, ys: seq<real>)
    requires Linked(frames) && AreFrames(frames, groups) && Collected(frames, groups, xs)
    requires forall x :: x in xs ==> x in ys
    ensures Collected(frames, groups, ys)
  {
    forall i, f | 0 <= i < |groups| && 0 <= f < |frames| && OnChain(frames, groups[i], f)
      ensures BoundsOf(frames, f, ys)
    {
      assert BoundsOf(frames, f, xs);
    }
  }

  /** Every seen frame's bounds are collected, and every seen frame's parent is
      seen or is `next`. */
  ghost predicate Seen(frames: Frames, seen: set<int>, bounds: seq<real>, next: int)
    requires Linked(frames)
  {
    forall g :: g in seen ==>
      && 0 <= g < |frames| && BoundsOf(frames, g, bounds)
      && (frames[g].parent < 0 || frames[g].parent in seen || frames[g].parent == next)
  }

  lemma {:induction false} SeenChain(frames: Frames, seen: set<int>, bounds: seq<real>, g: int, f: int)
    requires Linked(frames) && IsFrame(frames, g) && Seen(frames, seen, bounds, -1)
    requires (g < 0 || g in seen) && OnChain(frames, g, f)
    ensures f in seen
    decreases g
  {
    if f != g {
      SeenChain(frames, seen, bounds, frames[g].parent, f);
    }
  }

  /** The distinct bounds of all groups, stopping a climb at the first frame met before. */
  method CollectBounds(frames: Frames, groups: seq<int>) returns (bounds: seq<real>)
    requires Linked(frames) && AreFrames(frames, groups)
    ensures Collected(frames, groups, bounds)
    ensures forall v :: v in bounds ==> exists f :: 0 <= f < |frames| && BoundOf(frames, f, v)
    ensures forall i, j :: 0 <= i < j < |bounds| ==> bounds[i] != bounds[j]
  {
    bounds := [];
    var seen: set<int> := {};
    for i := 0 to |groups|
      invariant Seen(frames, seen, bounds, -1)
      invariant forall j :: 0 <= j < i ==> groups[j] < 0 || groups[j] in seen
      invariant forall v :: v in bounds ==> exists f :: 0 <= f < |frames| && BoundOf(frames, f, v)
      invariant forall i, j :: 0 <= i < j < |bounds| ==> bounds[i] != bounds[j]
    {
      var frame := groups[i];
      while frame >= 0 && frame !in seen
        invariant IsFrame(frames, frame) && Seen(frames, seen, bounds, frame)
        invariant frame == groups[i] || groups[i] in seen
        invariant forall j :: 0 <= j < i ==> groups[j] < 0 || groups[j] in seen
        invariant forall v :: v in bounds ==> exists f :: 0 <= f < |frames| && BoundOf(frames, f, v)
        invariant forall i, j :: 0 <= i < j < |bounds| ==> bounds[i] != bounds[j]
        decreases frame
      {
        bounds := AddBounds(frames, frame, bounds);
        seen := seen + {frame};
        frame := frames[frame].parent;
      }
    }
    forall i, f | 0 <= i < |groups| && 0 <= f < |frames| && OnChain(frames, groups[i], f)
      ensures BoundsOf(frames, f, bounds)
    {
      SeenChain(frames, seen, bounds, groups[i], f);
    }
  }

  /** Add the bounds of one frame that are not there yet. */
  method AddBounds(frames: Frames, f: int, bounds: seq<real>) returns (more: seq<real>)
    requires 0 <= f < |frames|
    requires forall i, j :: 0 <= i < j < |bounds| ==> bounds[i] != bounds[j]
    ensures BoundsOf(frames, f, more) && forall v :: v in more <==> v in bounds || BoundOf(frames, f, v)
    ensures forall i, j :: 0 <= i < j < |more| ==> more[i] != more[j]
  {
    more := bounds;
    var c := frames[f].condition;
    for i := 0 to |c|
      invariant forall v :: v in bounds ==> v in more
      invariant forall k, b :: 0 <= k < i && b in c[k].bounds ==> b.value in more
      invariant forall v :: v in more ==> v in bounds || BoundOf(frames, f, v)
      invariant forall i, j :: 0 <= i < j < |more| ==> more[i] != more[j]
    {
      for j := 0 to |c[i].bounds|
        invariant forall v :: v in bounds ==> v in more
        invariant forall k, b :: 0 <= k < i && b in c[k].bounds ==> b.value in more
        invariant forall k :: 0 <= k < j ==> c[i].bounds[k].value in more
        invariant forall v :: v in more ==> v in bounds || BoundOf(frames, f, v)
        invariant forall i, j :: 0 <= i < j < |more| ==> more[i] != more[j]
      {
        var v := c[i].bounds[j].value;
        assert c[i] in c && c[i].bounds[j] in c[i].bounds && BoundOf(frames, f, v);
        if v !in more {
          more := more + [v];
        }
      }
    }
  }

  predicate Ascending(values: seq<real>) {
    forall i, j :: 0 <= i < j < |values| ==> values[i] <= values[j]
  }

  function Inserted(values: seq<real>, v: real): (more: seq<real>)
    requires Ascending(values)
    ensures Ascending(more) && |more| == |values| + 1 && forall x :: x in more <==> x in values || x == v
  {
    if values == [] || v <= values[0] then [v] + values
    else
      var rest := Inserted(values[1..], v);
      assert forall j :: 0 <= j < |rest| ==> rest[j] in rest;
      [values[0]] + rest
  }

  /** The values in ascending order. */
  function Sorted(values: seq<real>): (more: seq<real>)
    ensures Ascending(more) && |more| == |values| && forall x :: x in more <==> x in values
  {
    if values == [] then [] else Inserted(Sorted(values[1..]), values[0])
  }

  /** Every width up to `top` has a candidate on its side of all bounds. */
  ghost predicate Covered(bounds: seq<real>, candidates: seq<real>, top: real) {
    forall w {:trigger SideFound(bounds, candidates, w)} :: 0.0 <= w <= top ==> SideFound(bounds, candidates, w)
  }

  ghost predicate SideFound(bounds: seq<real>, candidates: seq<real>, w: real) {
    exists i :: 0 <= i < |candidates| && SameSide(bounds, w, candidates[i])
  }

  lemma {:induction false} SideKept(bounds: seq<real>, candidates: seq<real>, more: seq<real>, w: real)
    requires SideFound(bounds, candidates, w)
    ensures SideFound(bounds, candidates + more, w)
  {
    var i :| 0 <= i < |candidates| && SameSide(bounds, w, candidates[i]);
    assert (candidates + more)[i] == candidates[i];
  }

  lemma {:induction false} SideAdded(bounds: seq<real>, candidates: seq<real>, more: seq<real>, w: real, i: nat)
    requires i < |more| && SameSide(bounds, w, more[i])
    ensures SideFound(bounds, candidates + more, w)
  {
    assert (candidates + more)[|candidates| + i] == more[i];
  }

  /** The next bound above `prev` brings the open interval before it and itself. */
  lemma {:induction false} CoverNext(bounds: seq<real>, k: nat, candidates: seq<real>, prev: real)
    requires Ascending(bounds) && k < |bounds| && prev < bounds[k]
    requires forall i :: 0 <= i < k ==> bounds[i] <= prev
    requires Covered(bounds, candidates, prev)
    ensures Covered(bounds, candidates + [prev + (bounds[k] - prev) / 2.0, bounds[k]], bounds[k])
  {
    var more := [prev + (bounds[k] - prev) / 2.0, bounds[k]];
    forall w | 0.0 <= w <= bounds[k]
      ensures SideFound(bounds, candidates + more, w)
    {
      if w <= prev {
        SideKept(bounds, candidates, more, w);
      } else if w == bounds[k] {
        assert SameSide(bounds, w, more[1]);
        SideAdded(bounds, candidates, more, w, 1);
      } else {
        forall v | v in bounds
          ensures (w < v <==> more[0] < v) && (w > v <==> more[0] > v)
        {
          var i :| 0 <= i < |bounds| && bounds[i] == v;
          assert i > k ==> bounds[k] <= bounds[i];
        }
        SideAdded(bounds, candidates, more, w, 0);
      }
    }
  }

  /** Zero, each bound above it with the middle of the interval before it, and
      some width beyond the last, unless none exists. */
  method CandidateWidths(bounds: seq<real>, largest: real, nextAfter: real -> real) returns (candidates: seq<real>)
    requires Ascending(bounds) && largest >= 0.0 && forall v :: v in bounds ==> v <= largest
    requires forall x :: x < largest ==> x < nextAfter(x) <= largest
    ensures candidates != [] && Covered(bounds, candidates, largest)
    ensures forall i :: 0 <= i < |candidates| ==> 0.0 <= candidates[i] <= largest
  {
    candidates := [0.0];
    var prev := 0.0;
    assert SameSide(bounds, 0.0, candidates[0]) && SideFound(bounds, candidates, 0.0);
    for k := 0 to |bounds|
      invariant candidates != [] && 0.0 <= prev <= largest && Covered(bounds, candidates, prev)
      invariant forall i :: 0 <= i < k ==> bounds[i] <= prev
      invariant forall i :: 0 <= i < |candidates| ==> 0.0 <= candidates[i] <= largest
    {
      var b := bounds[k];
      assert b in bounds;
      if b > prev {
        CoverNext(bounds, k, candidates, prev);
        candidates := candidates + [prev + (b - prev) / 2.0, b];
        prev := b;
      }
    }
    if prev < largest {
      forall w | 0.0 <= w <= largest
        ensures SideFound(bounds, candidates + [nextAfter(prev)], w)
      {
        if w <= prev {
          SideKept(bounds, candidates, [nextAfter(prev)], w);
        } else {
          assert SameSide(bounds, w, [nextAfter(prev)][0]);
          SideAdded(bounds, candidates, [nextAfter(prev)], w, 0);
        }
      }
      candidates := candidates + [nextAfter(prev)];
    }
  }

  /** Some listed width gives every group the state that `w` gives it. */
  ghost predicate StandIn(frames: Frames, groups: seq<int>, widths: seq<real>, w: real)
    requires Linked(frames) && AreFrames(frames, groups)
  {
    exists i :: 0 <= i < |widths| &&
        GroupStates(frames, groups, widths[i], false) == GroupStates(frames, groups, w, false)
  }

  /** No two listed widths give the same states. */
  ghost predicate AllDiffer(frames: Frames, groups: seq<int>, widths: seq<real>)
    requires Linked(frames) && AreFrames(frames, groups)
  {
    forall i, j :: 0 <= i < j < |widths| ==>
      GroupStates(frames, groups, widths[i], false) != GroupStates(frames, groups, widths[j], false)
  }

  lemma {:induction false} StandInKept(frames: Frames, groups: seq<int>, widths: seq<real>, width: real, w: real)
    requires Linked(frames) && AreFrames(frames, groups) && (StandIn(frames, groups, widths, w) || w == width)
    ensures StandIn(frames, groups, widths + [width], w)
  {
    if w == width {
      assert (widths + [width])[|widths|] == width;
    } else {
      var i :| 0 <= i < |widths| &&
          GroupStates(frames, groups, widths[i], false) == GroupStates(frames, groups, w, false);
      assert (widths + [width])[i] == widths[i];
    }
  }

  ghost predicate SignatureOf(frames: Frames, groups: seq<int>, widths: seq<real>, s: seq<MediaState>)
    requires Linked(frames) && AreFrames(frames, groups) && groups != []
  {
    exists i :: 0 <= i < |widths| && GroupStates(frames, groups, widths[i], false)[1..] == s
  }

  /** The signatures met so far are those of the listed widths. */
  ghost predicate Signed(frames: Frames, groups: seq<int>, widths: seq<real>, seen: set<seq<MediaState>>)
    requires Linked(frames) && AreFrames(frames, groups) && groups != []
  {
    forall s :: s in seen <==> SignatureOf(frames, groups, widths, s)
  }

  lemma {:induction false} SignatureStandsIn(frames: Frames, groups: seq<int>, widths: seq<real>, w: real)
    requires Linked(frames) && AreFrames(frames, groups) && groups != [] && groups[0] == -1
    ensures SignatureOf(frames, groups, widths, GroupStates(frames, groups, w, false)[1..]) <==>
              StandIn(frames, groups, widths, w)
  {
    var s := GroupStates(frames, groups, w, false)[1..];
    if SignatureOf(frames, groups, widths, s) {
      var i :| 0 <= i < |widths| && GroupStates(frames, groups, widths[i], false)[1..] == s;
      SameTail(frames, groups, widths[i], w);
    }
  }

  lemma {:induction false} SignedNext(frames: Frames, groups: seq<int>, widths: seq<real>, seen: set<seq<MediaState>>,
                                      w: real)
    requires Linked(frames) && AreFrames(frames, groups) && groups != [] && Signed(frames, groups, widths, seen)
    ensures Signed(frames, groups, widths + [w], seen + {GroupStates(frames, groups, w, false)[1..]})
  {
    var more, tail := widths + [w], GroupStates(frames, groups, w, false)[1..];
    forall s
      ensures SignatureOf(frames, groups, more, s) <==> SignatureOf(frames, groups, widths, s) || s == tail
    {
      assert more[|widths|] == w;
      if SignatureOf(frames, groups, widths, s) {
        var i :| 0 <= i < |widths| && GroupStates(frames, groups, widths[i], false)[1..] == s;
        assert more[i] == widths[i];
      }
    }
  }

  lemma {:induction false} DifferNext(frames: Frames, groups: seq<int>, widths: seq<real>, w: real)
    requires Linked(frames) && AreFrames(frames, groups) && AllDiffer(frames, groups, widths) &&
             !StandIn(frames, groups, widths, w)
    ensures AllDiffer(frames, groups, widths + [w])
  {
  }

  ghost predicate SoundCache(frames: Frames, groups: seq<int>, cache: map<(real, bool), seq<MediaState>>)
    requires Linked(frames) && AreFrames(frames, groups)
  {
    forall key :: key in cache ==> cache[key] == GroupStates(frames, groups, key.0, key.1)
  }

  /** The first `k` candidates are stood for by `widths`, none of them twice. */
  ghost predicate Kept(frames: Frames, groups: seq<int>, candidates: seq<real>, k: nat, widths: seq<real>,
                       seen: set<seq<MediaState>>)
    requires Linked(frames) && AreFrames(frames, groups) && groups != [] && k <= |candidates|
  {
    && Signed(frames, groups, widths, seen) && AllDiffer(frames, groups, widths)
    && forall j :: 0 <= j < k ==> StandIn(frames, groups, widths, candidates[j])
  }

  lemma {:induction false} KeptNext(frames: Frames, groups: seq<int>, candidates: seq<real>, k: nat,
                                    widths: seq<real>, seen: set<seq<MediaState>>)
    requires Linked(frames) && AreFrames(frames, groups) && groups != [] && groups[0] == -1 && k < |candidates|
    requires Kept(frames, groups, candidates, k, widths, seen)
    ensures var signature := GroupStates(frames, groups, candidates[k], false)[1..];
            if signature in seen then Kept(frames, groups, candidates, k + 1, widths, seen)
            else Kept(frames, groups, candidates, k + 1, widths + [candidates[k]], seen + {signature})
  {
    var width := candidates[k];
    SignatureStandsIn(frames, groups, widths, width);
    if GroupStates(frames, groups, width, false)[1..] !in seen {
      forall j | 0 <= j <= k { StandInKept(frames, groups, widths, width, candidates[j]); }
      SignedNext(frames, groups, widths, seen, width);
      DifferNext(frames, groups, widths, width);
    }
  }

  /** Keep the first candidate of each state vector, and cache its vector. */
  method KeepDistinct(frames: Frames, groups: seq<int>, candidates: seq<real>)
    returns (widths: seq<real>, cache: map<(real, bool), seq<MediaState>>)
    requires Linked(frames) && AreFrames(frames, groups) && groups != [] && groups[0] == -1
    ensures forall k :: 0 <= k < |candidates| ==> StandIn(frames, groups, widths, candidates[k])
    ensures AllDiffer(frames, groups, widths) && SoundCache(frames, groups, cache)
  {
    widths, cache := [], map[];
    var seen: set<seq<MediaState>> := {};
    for k := 0 to |candidates|
      invariant Kept(frames, groups, candidates, k, widths, seen) && SoundCache(frames, groups, cache)
    {
      KeptNext(frames, groups, candidates, k, widths, seen);
      var width := candidates[k];
      var states := EvaluateGroups(frames, groups, width, false);
      if states[1..] !in seen {
        seen := seen + {states[1..]};
        cache := cache[(width, false) := states];
        widths := widths + [width];
      }
    }
  }

  /* The sheet's media state. */

  /** What is kept for a sheet: the distinct condition chains of its rules, the
      chain of each rule, and evaluated state vectors. */
  class MediaRuntime {
    const frames: Frames
    /** The condition chain of each rule. */
    const conditions: seq<int>
    /** Distinct chains, the unconditional one first; empty until prepared. */
    var groups: seq<int>
    var mediaGroup: seq<nat>
    var cache: map<(real, bool), seq<MediaState>>

    ghost predicate Valid()
      reads this
    {
      && Linked(frames) && AreFrames(frames, conditions) && AreFrames(frames, groups)
      && (groups == [] ==> cache == map[])
      && (groups != [] ==> Prepared())
      && SoundCache(frames, groups, cache)
    }

    /** Rules share a group exactly when they share a chain. */
    ghost predicate Prepared()
      reads this
    {
      && groups != [] && groups[0] == -1 && |mediaGroup| == |conditions|
      && (forall i, j :: 0 <= i < j < |groups| ==> groups[i] != groups[j])
      && forall i :: 0 <= i < |conditions| ==> mediaGroup[i] < |groups| && groups[mediaGroup[i]] == conditions[i]
    }

    constructor (frames: Frames, conditions: seq<int>)
      requires Linked(frames) && AreFrames(frames, conditions)
      ensures Valid() && groups == [] && this.frames == frames && this.conditions == conditions
    {
      this.frames, this.conditions := frames, conditions;
      groups, mediaGroup, cache := [], [], map[];
    }

    method PrepareMediaGroups()
      requires Valid()
      modifies this
      ensures Valid() && Prepared() && cache == old(cache)
      ensures old(groups) != [] ==> groups == old(groups) && mediaGroup == old(mediaGroup)
    {
      if groups != [] {
        return;
      }
      var ids: map<int, nat> := map[-1 := 0];
      var distinct: seq<int>, chosen: seq<nat> := [-1], [];
      for i := 0 to |conditions|
        invariant groups == [] && cache == old(cache)
        invariant |chosen| == i && distinct != [] && distinct[0] == -1 && AreFrames(frames, distinct)
        invariant forall f :: f in ids ==> ids[f] < |distinct| && distinct[ids[f]] == f
        invariant forall j :: 0 <= j < |distinct| ==> distinct[j] in ids
        invariant forall j, k :: 0 <= j < k < |distinct| ==> distinct[j] != distinct[k]
        invariant forall j :: 0 <= j < i ==> chosen[j] < |distinct| && distinct[chosen[j]] == conditions[j]
      {
        var frame := conditions[i];
        if frame !in ids {
          ids := ids[frame := |distinct|];
          distinct := distinct + [frame];
        }
        chosen := chosen + [ids[frame]];
      }
      groups, mediaGroup := distinct, chosen;
    }

    /** The state of every group at a width, from the cache when it is there. */
    method MediaStates(width: real, fallback: bool) returns (states: seq<MediaState>)
      requires Valid()
      modifies this
      ensures Valid() && Prepared() && states == GroupStates(frames, groups, width, fallback)
      ensures old(groups) != [] ==> groups == old(groups) && mediaGroup == old(mediaGroup)
    {
      PrepareMediaGroups();
      var key := (width, fallback);
      if key in cache {
        return cache[key];
      }
      states := EvaluateGroups(frames, groups, width, fallback);
      cache := cache[key := states];
    }

    /** The widths to view the sheet at. `largest` is the greatest finite width
        and `nextAfter` gives some width beyond a smaller one. */
    method ViewingCases(incomplete: bool, largest: real, nextAfter: real -> real)
      returns (widths: seq<real>, fallback: bool)
      requires Valid() && largest >= 0.0 && forall x :: x < largest ==> x < nextAfter(x) <= largest
      requires forall f, v :: 0 <= f < |frames| && BoundOf(frames, f, v) ==> v <= largest
      modifies this
      ensures Valid() && fallback == incomplete && widths != [] && (incomplete ==> widths == [DEFAULT_WIDTH])
      ensures !incomplete ==> Prepared() && forall w :: 0.0 <= w <= largest ==> StandIn(frames, groups, widths, w)
      ensures !incomplete ==> AllDiffer(frames, groups, widths)
    {
      if incomplete {
        return [DEFAULT_WIDTH], true;
      }
      fallback := false;
      PrepareMediaGroups();
      var bounds := CollectBounds(frames, groups);
      if bounds == [] {
        var states := EvaluateGroups(frames, groups, DEFAULT_WIDTH, false);
        cache := cache[(DEFAULT_WIDTH, false) := states];
        widths := [DEFAULT_WIDTH];
        forall w | 0.0 <= w <= largest
          ensures StandIn(frames, groups, widths, w)
        {
          SameSideStates(frames, groups, bounds, w, widths[0]);
        }
        return;
      }
      var sorted := Sorted(bounds);
      CollectedSame(frames, groups, bounds, sorted);
      var candidates := CandidateWidths(sorted, largest, nextAfter);
      widths, cache := KeepDistinct(frames, groups, candidates);
      assert StandIn(frames, groups, widths, candidates[0]);
      forall w | 0.0 <= w <= largest
        ensures StandIn(frames, groups, widths, w)
      {
        assert SideFound(sorted, candidates, w);
        var i :| 0 <= i < |candidates| && SameSide(sorted, w, candidates[i]);
        SameSideStates(frames, groups, sorted, w, candidates[i]);
        assert StandIn(frames, groups, widths, candidates[i]);
      }
    }
  }

  /** The unconditional group does not tell widths apart. */
  lemma {:induction false} SameTail(frames: Frames, groups: seq<int>, w: real, v: real)
    requires Linked(frames) && AreFrames(frames, groups) && groups != [] && groups[0] == -1
    requires GroupStates(frames, groups, w, false)[1..] == GroupStates(frames, groups, v, false)[1..]
    ensures GroupStates(frames, groups, w, false) == GroupStates(frames, groups, v, false)
  {
    var xs, ys := GroupStates(frames, groups, w, false), GroupStates(frames, groups, v, false);
    forall i | 0 <= i < |groups|
      ensures xs[i] == ys[i]
    {
      if i > 0 {
        assert xs[i] == xs[1..][i - 1] && ys[i] == ys[1..][i - 1];
      }
    }
  }
}
