/** Media conditions: what a condition means in a viewing environment, and the
    three-valued evaluation that is made without knowing the environment. */
module Media {
  datatype MediaState = No | Yes | Unknown | YesColourScheme | AlternateColourScheme

  datatype WidthBound = WidthBound(min: bool, value: real)

  /** One alternative of a condition; `unknown` marks features that are not understood. */
  datatype Alternative = Alternative(bounds: seq<WidthBound>, light: bool, dark: bool, unknown: bool, never: bool)

  type Condition = seq<Alternative>

  /** A persistent stack of conditions: a frame names its parent by index, -1 for none. */
  datatype ConditionFrame = ConditionFrame(condition: Condition, parent: int)

  type Frames = seq<ConditionFrame>

  predicate Linked(frames: Frames) {
    forall f :: 0 <= f < |frames| ==> -1 <= frames[f].parent < f
  }

  predicate IsFrame(frames: Frames, f: int) {
    -1 <= f < |frames|
  }

  /* Meaning. */

  /** A viewing environment. `features` resolves the unknown part of each
      alternative, named by its frame and its place in the condition. */
  datatype World = World(width: real, dark: bool, features: (int, int) -> bool)

  /** Every lower bound is reached and no upper bound exceeded, the scheme in use
      is one of those named, and what is not understood comes out true. */
  predicate AlternativeHolds(a: Alternative, f: int, i: int, world: World) {
    && !a.never && (a.unknown ==> world.features(f, i))
    && (forall b :: b in a.bounds ==> (b.min ==> b.value <= world.width) && (!b.min ==> world.width <= b.value))
    && (world.dark ==> a.dark) && (!world.dark ==> a.light)
  }

  ghost predicate ConditionHolds(c: Condition, f: int, world: World) {
    exists i :: 0 <= i < |c| && AlternativeHolds(c[i], f, i, world)
  }

  /** Nested conditions all hold. */
  ghost predicate ChainHolds(frames: Frames, f: int, world: World)
    requires Linked(frames) && IsFrame(frames, f)
    decreases f
  {
    f < 0 || (ConditionHolds(frames[f].condition, f, world) && ChainHolds(frames, frames[f].parent, world))
  }

  /* Evaluation. */

  predicate Meets(b: WidthBound, width: real) {
    if b.min then width >= b.value else width <= b.value
  }

  predicate MeetsAll(bounds: seq<WidthBound>, width: real) {
    forall i :: 0 <= i < |bounds| ==> Meets(bounds[i], width)
  }

  predicate ForScheme(a: Alternative, dark: bool) {
    if dark then a.dark else a.light
  }

  predicate Applies(a: Alternative, width: real, fallback: bool, dark: bool) {
    !a.never && (fallback || MeetsAll(a.bounds, width)) && ForScheme(a, dark)
  }

  predicate Certain(a: Alternative, fallback: bool) {
    !a.unknown && !(fallback && |a.bounds| > 0)
  }

  /** The best any alternative offers. */
  ghost function ConditionState(c: Condition, width: real, fallback: bool, dark: bool): MediaState {
    if exists i :: 0 <= i < |c| && Applies(c[i], width, fallback, dark) && Certain(c[i], fallback) then Yes
    else if exists i :: 0 <= i < |c| && Applies(c[i], width, fallback, dark) then Unknown
    else No
  }

  function IntersectMediaState(left: MediaState, right: MediaState): MediaState {
    if left == No || right == No then No
    else if left == Unknown || right == Unknown then Unknown
    else Yes
  }

  function CombinedMediaState(light: MediaState, dark: MediaState): MediaState {
    if light == Unknown then Unknown
    else if light == Yes then if dark == Yes then Yes else YesColourScheme
    else if dark != No then AlternateColourScheme
    else No
  }

  /** The state of a chain of frames, evaluated afresh from its root. */
  ghost function ChainState(frames: Frames, f: int, width: real, fallback: bool, dark: bool): MediaState
    requires Linked(frames) && IsFrame(frames, f)
    decreases f
  {
    if f < 0 then Yes
    else IntersectMediaState(ChainState(frames, frames[f].parent, width, fallback, dark),
                             ConditionState(frames[f].condition, width, fallback, dark))
  }

  /* Soundness. */

  /** Every feature that is not understood resolved one way. */
  ghost function Uniform(width: real, dark: bool, resolved: bool): World {
    World(width, dark, (f, i) => resolved)
  }

  /** A chain is certain exactly when it holds however the unknown features of
      that width and scheme resolve. */
  lemma {:induction false} YesIsAlways(frames: Frames, f: int, width: real, dark: bool)
    requires Linked(frames) && IsFrame(frames, f)
    ensures ChainState(frames, f, width, false, dark) == Yes <==>
            forall world: World :: world.width == width && world.dark == dark ==> ChainHolds(frames, f, world)
  {
    forall world: World | world.width == width && world.dark == dark && ChainState(frames, f, width, false, dark) == Yes
      ensures ChainHolds(frames, f, world)
    {
      YesHolds(frames, f, width, false, world);
    }
    if ChainState(frames, f, width, false, dark) != Yes {
      var worst := Uniform(width, dark, false);
      UnlessYesFails(frames, f, worst);
      assert worst.width == width && worst.dark == dark;
    }
  }

  /** A chain is ruled out exactly when no resolution makes it hold. */
  lemma {:induction false} NoIsNever(frames: Frames, f: int, width: real, dark: bool)
    requires Linked(frames) && IsFrame(frames, f)
    ensures ChainState(frames, f, width, false, dark) == No <==>
            forall world: World :: world.width == width && world.dark == dark ==> !ChainHolds(frames, f, world)
  {
    forall world: World | world.width == width && world.dark == dark && ChainState(frames, f, width, false, dark) == No
      ensures !ChainHolds(frames, f, world)
    {
      NoFails(frames, f, width, false, world);
    }
    if ChainState(frames, f, width, false, dark) != No {
      var best := Uniform(width, dark, true);
      UnlessNoHolds(frames, f, best);
      assert best.width == width && best.dark == dark;
    }
  }

  /** Without a known width the answers still bind every width. */
  lemma {:induction false} FallbackIsSound(frames: Frames, f: int, width: real, world: World)
    requires Linked(frames) && IsFrame(frames, f)
    ensures ChainState(frames, f, width, true, world.dark) == Yes ==> ChainHolds(frames, f, world)
    ensures ChainState(frames, f, width, true, world.dark) == No ==> !ChainHolds(frames, f, world)
  {
    if ChainState(frames, f, width, true, world.dark) == Yes {
      YesHolds(frames, f, width, true, world);
    } else if ChainState(frames, f, width, true, world.dark) == No {
      NoFails(frames, f, width, true, world);
    }
  }

  lemma {:induction false} YesHolds(frames: Frames, f: int, width: real, fallback: bool, world: World)
    requires Linked(frames) && IsFrame(frames, f) && (fallback || width == world.width)
    requires ChainState(frames, f, width, fallback, world.dark) == Yes
    ensures ChainHolds(frames, f, world)
    decreases f
  {
    if f >= 0 {
      var c := frames[f].condition;
      YesHolds(frames, frames[f].parent, width, fallback, world);
      assert ConditionState(c, width, fallback, world.dark) == Yes;
      var i :| 0 <= i < |c| && Applies(c[i], width, fallback, world.dark) && Certain(c[i], fallback);
      assert AlternativeHolds(c[i], f, i, world);
    }
  }

  lemma {:induction false} NoFails(frames: Frames, f: int, width: real, fallback: bool, world: World)
    requires Linked(frames) && IsFrame(frames, f) && (fallback || width == world.width)
    requires ChainState(frames, f, width, fallback, world.dark) == No
    ensures !ChainHolds(frames, f, world)
    decreases f
  {
    var c := frames[f].condition;
    if ConditionHolds(c, f, world) {
      var i :| 0 <= i < |c| && AlternativeHolds(c[i], f, i, world);
      assert Applies(c[i], width, fallback, world.dark);
      NoFails(frames, frames[f].parent, width, fallback, world);
    }
  }

  lemma {:induction false} UnlessYesFails(frames: Frames, f: int, world: World)
    requires Linked(frames) && IsFrame(frames, f) && world == Uniform(world.width, world.dark, false)
    requires ChainState(frames, f, world.width, false, world.dark) != Yes
    ensures !ChainHolds(frames, f, world)
    decreases f
  {
    var c := frames[f].condition;
    if ConditionHolds(c, f, world) {
      var i :| 0 <= i < |c| && AlternativeHolds(c[i], f, i, world);
      assert Applies(c[i], world.width, false, world.dark) && Certain(c[i], false);
      UnlessYesFails(frames, frames[f].parent, world);
    }
  }

  lemma {:induction false} UnlessNoHolds(frames: Frames, f: int, world: World)
    requires Linked(frames) && IsFrame(frames, f) && world == Uniform(world.width, world.dark, true)
    requires ChainState(frames, f, world.width, false, world.dark) != No
    ensures ChainHolds(frames, f, world)
    decreases f
  {
    if f >= 0 {
      var c := frames[f].condition;
      UnlessNoHolds(frames, frames[f].parent, world);
      assert ConditionState(c, world.width, false, world.dark) != No;
      var i :| 0 <= i < |c| && Applies(c[i], world.width, false, world.dark);
      assert AlternativeHolds(c[i], f, i, world);
    }
  }

  /** What one combined state of a rule says about the environments of a width. */
  lemma {:induction false} CombinedMeaning(frames: Frames, f: int, width: real)
    requires Linked(frames) && IsFrame(frames, f)
    ensures var state := CombinedMediaState(ChainState(frames, f, width, false, false),
                                            ChainState(frames, f, width, false, true));
            && (state == No <==> forall world: World :: world.width == width ==> !ChainHolds(frames, f, world))
            && (state == Yes <==> forall world: World :: world.width == width ==> ChainHolds(frames, f, world))
            && (state == YesColourScheme || state == Yes <==>
                forall world: World :: world.width == width && !world.dark ==> ChainHolds(frames, f, world))
            && (state == AlternateColourScheme || state == No <==>
                forall world: World :: world.width == width && !world.dark ==> !ChainHolds(frames, f, world))
  {
    YesIsAlways(frames, f, width, false);
    YesIsAlways(frames, f, width, true);
    NoIsNever(frames, f, width, false);
    NoIsNever(frames, f, width, true);
    ThreeStates(frames, f, width, false, false);
    ThreeStates(frames, f, width, false, true);
  }

  lemma {:induction false} ThreeStates(frames: Frames, f: int, width: real, fallback: bool, dark: bool)
    requires Linked(frames) && IsFrame(frames, f)
    ensures ChainState(frames, f, width, fallback, dark) in {No, Yes, Unknown}
  {
  }
}
