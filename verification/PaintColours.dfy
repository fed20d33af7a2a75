/** Text and background colour through a stack of paint layers. */
module PaintColours {
  /** Unassociated channels. */
  datatype RGBA = RGBA(r: real, g: real, b: real, a: real)

  const CLEAR := RGBA(0.0, 0.0, 0.0, 0.0)
  const WHITE := RGBA(1.0, 1.0, 1.0, 1.0)
  /** The default colour of a visited link. */
  const VISITED := RGBA(85.0 / 255.0, 26.0 / 255.0, 139.0 / 255.0, 1.0)

  datatype Value = Value(text: string, number: real, known: bool, rgba: RGBA)

  datatype PaintLayer = PaintLayer(
    background: RGBA, backgroundKnown: bool, imageKnown: bool, opacity: real, opacityKnown: bool,
    compositionKnown: bool, enhancementKnown: bool, glyphKnown: bool, shadowKnown: bool, displayNone: bool)
  {
    predicate ColourNeutral() {
      && backgroundKnown && background.a == 0.0 && imageKnown
      && opacityKnown && opacity == 1.0 && compositionKnown && enhancementKnown
    }
  }

  datatype ColourResult =
    | Resolved(foreground: RGBA, background: RGBA, distance: real)
    | Uncertain(uncertainty: string)

  const THRESHOLD: real := 0.005

  predicate Concealed(distance: real) {
    distance <= THRESHOLD
  }

  /** How far apart two final colours look. */
  type Distance = (RGBA, RGBA) -> real

  /** Source-over. */
  function Over(src: RGBA, dst: RGBA): RGBA {
    var a := src.a + dst.a * (1.0 - src.a);
    if a == 0.0 then CLEAR
    else RGBA((src.r * src.a + dst.r * dst.a * (1.0 - src.a)) / a,
              (src.g * src.a + dst.g * dst.a * (1.0 - src.a)) / a,
              (src.b * src.a + dst.b * dst.a * (1.0 - src.a)) / a, a)
  }

  /* The fold over the layers, innermost first. */

  datatype Pixel =
    | Pixel(ink: RGBA, ground: RGBA, enhanced: bool, image: bool)
    | Lost(uncertainty: string)

  function Blend(c: RGBA, p: PaintLayer): RGBA {
    var d := if c.a < 1.0 then Over(c, p.background) else c;
    d.(a := d.a * p.opacity)
  }

  function Through(x: Pixel, p: PaintLayer): Pixel {
    if x.Lost? then x
    else if !p.compositionKnown then Lost("unsupported composition effect")
    else if !p.opacityKnown then Lost("unresolved group opacity")
    else
      var covered := x.ink.a >= 1.0 && x.ground.a >= 1.0;
      if !covered && !p.backgroundKnown then Lost("unresolved background or image")
      else
        Pixel(Blend(x.ink, p), Blend(x.ground, p), x.enhanced || !p.enhancementKnown, x.image ||
              (!covered && !p.imageKnown))
  }

  function ThroughAll(x: Pixel, layers: seq<PaintLayer>): Pixel
    decreases layers
  {
    if layers == [] then x else ThroughAll(Through(x, layers[|layers| - 1]), layers[..|layers| - 1])
  }

  function Finished(x: Pixel, distance: Distance): ColourResult {
    if x.Lost? then Uncertain(x.uncertainty)
    else
      var ink, ground := Over(x.ink, WHITE), Over(x.ground, WHITE);
      if x.image then Uncertain("unsupported background image")
      else if x.enhanced && Concealed(distance(ink, ground)) then Uncertain("unsupported image or composition effect")
      else Resolved(ink, ground, distance(ink, ground))
  }

  function Started(foreground: Value, layers: seq<PaintLayer>): Pixel {
    if !foreground.known then Lost("unresolved foreground")
    else if layers == [] then Pixel(foreground.rgba, CLEAR, false, false)
    else if !layers[|layers| - 1].glyphKnown then Lost("unsupported glyph effect")
    else Pixel(foreground.rgba, CLEAR, !layers[|layers| - 1].shadowKnown, false)
  }

  function ColourOf(foreground: Value, layers: seq<PaintLayer>, distance: Distance): ColourResult {
    Finished(ThroughAll(Started(foreground, layers), layers), distance)
  }

  /** One layer, from inside to outside. */
  method PaintThrough(x: Pixel, p: PaintLayer) returns (y: Pixel)
    requires x.Pixel?
    ensures y == Through(x, p)
  {
    var ink, ground, uncertainEnhancement, unresolvedGroundImage := x.ink, x.ground, x.enhanced, x.image;
    if !p.compositionKnown {
      return Lost("unsupported composition effect");
    }
    if !p.enhancementKnown {
      uncertainEnhancement := true;
    }
    if !p.opacityKnown {
      return Lost("unresolved group opacity");
    }
    if (!p.backgroundKnown || !p.imageKnown) && (ink.a < 1.0 || ground.a < 1.0) {
      if p.backgroundKnown && !p.imageKnown {
        unresolvedGroundImage := true;
      } else {
        return Lost("unresolved background or image");
      }
    }
    if ink.a < 1.0 {
      ink := Over(ink, p.background);
    }
    if ground.a < 1.0 {
      ground := Over(ground, p.background);
    }
    ink := ink.(a := ink.a * p.opacity);
    ground := ground.(a := ground.a * p.opacity);
    return Pixel(ink, ground, uncertainEnhancement, unresolvedGroundImage);
  }

  method EvaluateColour(foreground: Value, layers: seq<PaintLayer>, distance: Distance) returns (result: ColourResult)
    ensures result == ColourOf(foreground, layers, distance)
    ensures foreground.known && Share(foreground.rgba.a) && Understood(layers) && OwnerKnown(layers) ==>
              var ink, ground := Canvas(layers, foreground.rgba), Canvas(layers, CLEAR);
              result == Resolved(ink, ground, distance(ink, ground))
  {
    if foreground.known && Share(foreground.rgba.a) && Understood(layers) && OwnerKnown(layers) {
      GroupOrder(foreground, layers, distance);
    }
    if !foreground.known {
      LostStays("unresolved foreground", layers);
      return Uncertain("unresolved foreground");
    }
    var x := Pixel(foreground.rgba, CLEAR, false, false);
    if |layers| > 0 {
      var owner := layers[|layers| - 1];
      if !owner.glyphKnown {
        LostStays("unsupported glyph effect", layers);
        return Uncertain("unsupported glyph effect");
      }
      x := x.(enhanced := !owner.shadowKnown);
    }
    var i := |layers|;
    assert layers[..i] == layers && Started(foreground, layers) == x;
    while i > 0
      invariant 0 <= i <= |layers| && x.Pixel?
      invariant ThroughAll(Started(foreground, layers), layers) == ThroughAll(x, layers[..i])
    {
      i := i - 1;
      assert layers[..i + 1][..i] == layers[..i];
      x := PaintThrough(x, layers[i]);
      if x.Lost? {
        LostStays(x.uncertainty, layers[..i]);
        return Uncertain(x.uncertainty);
      }
    }
    var ink, ground := Over(x.ink, WHITE), Over(x.ground, WHITE);
    var apart := distance(ink, ground);
    if x.image {
      return Uncertain("unsupported background image");
    }
    if x.enhanced && Concealed(apart) {
      return Uncertain("unsupported image or composition effect");
    }
    return Resolved(ink, ground, apart);
  }

  lemma {:induction false} LostStays(uncertainty: string, layers: seq<PaintLayer>)
    ensures ThroughAll(Lost(uncertainty), layers) == Lost(uncertainty)
  {
    if layers != [] {
      LostStays(uncertainty, layers[..|layers| - 1]);
    }
  }

  /* Neutral layers. */

  /** Clear paint is the same whatever its channels are. */
  predicate SamePaint(c: RGBA, d: RGBA) {
    c == d || (c.a == 0.0 && d.a == 0.0)
  }

  predicate SamePixel(x: Pixel, y: Pixel) {
    x == y ||
    (x.Pixel? && y.Pixel? && SamePaint(x.ink, y.ink) && SamePaint(x.ground, y.ground) &&
     x.enhanced == y.enhanced && x.image == y.image)
  }

  lemma {:induction false} SameOver(c: RGBA, d: RGBA, under: RGBA)
    requires SamePaint(c, d)
    ensures Over(c, under) == Over(d, under)
  {
    if c.a == 0.0 && d.a == 0.0 {
      assert c.r * c.a == 0.0 && c.g * c.a == 0.0 && c.b * c.a == 0.0;
      assert d.r * d.a == 0.0 && d.g * d.a == 0.0 && d.b * d.a == 0.0;
    }
  }

  lemma {:induction false} SameBlend(c: RGBA, d: RGBA, p: PaintLayer)
    requires SamePaint(c, d)
    ensures Blend(c, p) == Blend(d, p)
  {
    SameOver(c, d, p.background);
  }

  lemma {:induction false} NothingUnder(c: real, ca: real, d: real, da: real)
    requires ca != 0.0 && da == 0.0
    ensures (c * ca + d * da * (1.0 - ca)) / ca == c
  {
    assert d * da == 0.0;
    assert c * ca + d * da * (1.0 - ca) == c * ca;
    Cancel(c, ca);
  }

  lemma {:induction false} Cancel(x: real, a: real)
    requires a != 0.0
    ensures x * a / a == x
  {
  }

  /** Nothing painted, at full opacity, leaves the paint as it was. */
  lemma {:induction false} NeutralBlend(c: RGBA, p: PaintLayer)
    requires p.background.a == 0.0 && p.opacity == 1.0
    ensures SamePaint(Blend(c, p), c)
  {
    if c.a < 1.0 && c.a != 0.0 {
      var bg := p.background;
      NothingUnder(c.r, c.a, bg.r, bg.a);
      NothingUnder(c.g, c.a, bg.g, bg.a);
      NothingUnder(c.b, c.a, bg.b, bg.a);
      assert Over(c, bg) == c;
    }
  }

  lemma {:induction false} SameThrough(x: Pixel, y: Pixel, p: PaintLayer)
    requires SamePixel(x, y)
    ensures SamePixel(Through(x, p), Through(y, p))
  {
    if x != y {
      SameBlend(x.ink, y.ink, p);
      SameBlend(x.ground, y.ground, p);
    }
  }

  lemma {:induction false} SameThroughAll(x: Pixel, y: Pixel, layers: seq<PaintLayer>)
    requires SamePixel(x, y)
    ensures SamePixel(ThroughAll(x, layers), ThroughAll(y, layers))
    decreases layers
  {
    if layers != [] {
      SameThrough(x, y, layers[|layers| - 1]);
      SameThroughAll(Through(x, layers[|layers| - 1]), Through(y, layers[|layers| - 1]), layers[..|layers| - 1]);
    }
  }

  lemma {:induction false} SameFinish(x: Pixel, y: Pixel, distance: Distance)
    requires SamePixel(x, y)
    ensures Finished(x, distance) == Finished(y, distance)
  {
    if x != y {
      SameOver(x.ink, y.ink, WHITE);
      SameOver(x.ground, y.ground, WHITE);
    }
  }

  lemma {:induction false} NeutralThrough(x: Pixel, p: PaintLayer)
    requires p.ColourNeutral()
    ensures SamePixel(Through(x, p), x)
  {
    if x.Pixel? {
      NeutralBlend(x.ink, p);
      NeutralBlend(x.ground, p);
    }
  }

  lemma {:induction false} ThroughConcat(x: Pixel, below: seq<PaintLayer>, above: seq<PaintLayer>)
    ensures ThroughAll(x, below + above) == ThroughAll(ThroughAll(x, above), below)
    decreases above
  {
    if above == [] {
      assert below + above == below;
    } else {
      var last := above[|above| - 1];
      assert (below + above)[..|below + above| - 1] == below + above[..|above| - 1];
      ThroughConcat(Through(x, last), below, above[..|above| - 1]);
    }
  }

  /** The glyph effects that count are those of the text's own layer. */
  predicate SameOwner(layers: seq<PaintLayer>, more: seq<PaintLayer>) {
    && layers != [] && more != []
    && layers[|layers| - 1].glyphKnown == more[|more| - 1].glyphKnown
    && layers[|layers| - 1].shadowKnown == more[|more| - 1].shadowKnown
  }

  /** A neutral layer inserted anywhere leaves every evaluated colour as it was. */
  lemma {:induction false} NeutralInsertion(foreground: Value, below: seq<PaintLayer>, p: PaintLayer,
                                            above: seq<PaintLayer>, distance: Distance)
    requires p.ColourNeutral() && SameOwner(below + above, below + [p] + above)
    ensures ColourOf(foreground, below + [p] + above, distance) == ColourOf(foreground, below + above, distance)
  {
    var x := Started(foreground, below + above);
    var y := ThroughAll(x, above);
    ThroughConcat(x, below + [p], above);
    ThroughConcat(x, below, above);
    ThroughConcat(y, below, [p]);
    assert [p][..0] == [];
    assert ThroughAll(y, [p]) == ThroughAll(Through(y, p), []);
    NeutralThrough(y, p);
    SameThroughAll(Through(y, p), y, below);
    SameFinish(ThroughAll(Through(y, p), below), ThroughAll(y, below), distance);
  }

  /* Painter's order. */

  predicate Share(a: real) {
    0.0 <= a <= 1.0
  }

  /** Channels already multiplied by their alpha. */
  datatype Light = Light(r: real, g: real, b: real, a: real)

  function LightOf(c: RGBA): Light {
    Light(c.r * c.a, c.g * c.a, c.b * c.a, c.a)
  }

  /** What shows of `y` through a share `a` of `x`, on top of `x`. */
  function Under(x: real, a: real, y: real): real {
    x + y * (1.0 - a)
  }

  function LightOver(x: Light, y: Light): Light {
    Light(Under(x.r, x.a, y.r), Under(x.g, x.a, y.g), Under(x.b, x.a, y.b), Under(x.a, x.a, y.a))
  }

  lemma {:induction false} Nonnegative(x: real, y: real)
    requires x >= 0.0 && y >= 0.0
    ensures x * y >= 0.0
  {
  }

  lemma {:induction false} UnderShare(x: real, y: real)
    requires Share(x) && Share(y)
    ensures Share(Under(x, x, y)) && (Under(x, x, y) == 0.0 ==> x == 0.0 && y == 0.0)
  {
    Nonnegative(y, 1.0 - x);
    Nonnegative(1.0 - y, 1.0 - x);
    assert (1.0 - y) * (1.0 - x) == (1.0 - x) - y * (1.0 - x);
    if x == 0.0 {
      assert y * (1.0 - x) == y;
    }
  }

  lemma {:induction false} OverLight(c: RGBA, d: RGBA)
    requires Share(c.a) && Share(d.a)
    ensures LightOf(Over(c, d)) == LightOver(LightOf(c), LightOf(d)) && Share(Over(c, d).a)
  {
    var a := Under(c.a, c.a, d.a);
    UnderShare(c.a, d.a);
    if a != 0.0 {
      OverChannel(c.r, c.a, d.r, d.a, a);
      OverChannel(c.g, c.a, d.g, d.a, a);
      OverChannel(c.b, c.a, d.b, d.a, a);
    }
  }

  lemma {:induction false} OverChannel(c: real, ca: real, d: real, da: real, a: real)
    requires a != 0.0
    ensures (c * ca + d * da * (1.0 - ca)) / a * a == Under(c * ca, ca, d * da)
  {
    Quotient(c * ca + d * da * (1.0 - ca), a);
  }

  lemma {:induction false} Quotient(x: real, a: real)
    requires a != 0.0
    ensures x / a * a == x
  {
  }

  lemma {:induction false} LightAssociative(x: Light, y: Light, z: Light)
    ensures LightOver(LightOver(x, y), z) == LightOver(x, LightOver(y, z))
  {
    Regroup(x.r, x.a, y.r, y.a, z.r);
    Regroup(x.g, x.a, y.g, y.a, z.g);
    Regroup(x.b, x.a, y.b, y.a, z.b);
    Regroup(x.a, x.a, y.a, y.a, z.a);
  }

  lemma {:induction false} Regroup(x: real, xa: real, y: real, ya: real, z: real)
    ensures Under(Under(x, xa, y), Under(xa, xa, ya), z) == Under(x, xa, Under(y, ya, z))
  {
    assert 1.0 - Under(xa, xa, ya) == (1.0 - ya) * (1.0 - xa);
    assert Under(y, ya, z) * (1.0 - xa) == y * (1.0 - xa) + z * (1.0 - ya) * (1.0 - xa);
    assert z * ((1.0 - ya) * (1.0 - xa)) == z * (1.0 - ya) * (1.0 - xa);
  }

  /** Painting from the canvas up: each background goes over what is outside it. */
  function Painted(layers: seq<PaintLayer>): RGBA {
    if layers == [] then WHITE else Over(layers[|layers| - 1].background, Painted(layers[..|layers| - 1]))
  }

  /** Fully understood layers without group opacity. */
  predicate Plain(layers: seq<PaintLayer>) {
    forall i :: 0 <= i < |layers| ==>
      && layers[i].backgroundKnown && layers[i].imageKnown && layers[i].opacityKnown && layers[i].opacity == 1.0
      && layers[i].compositionKnown && layers[i].enhancementKnown && Share(layers[i].background.a)
  }

  lemma {:induction false} PaintedOpaque(layers: seq<PaintLayer>)
    requires Plain(layers)
    ensures Painted(layers).a == 1.0
  {
    if layers != [] {
      PaintedOpaque(layers[..|layers| - 1]);
    }
  }

  lemma {:induction false} BlendLight(c: RGBA, p: PaintLayer)
    requires Share(c.a) && Plain([p])
    ensures LightOf(Blend(c, p)) == LightOver(LightOf(c), LightOf(p.background)) && Share(Blend(c, p).a)
  {
    assert p == [p][0];
    if c.a < 1.0 {
      OverLight(c, p.background);
      assert Blend(c, p) == Over(c, p.background);
    } else {
      assert Blend(c, p) == c;
    }
  }

  /** One colour folded outwards and laid on the canvas is that colour over the
      finished painting of everything below it. */
  lemma {:induction false} FoldIsPainting(x: Pixel, layers: seq<PaintLayer>)
    requires Plain(layers) && x.Pixel? && Share(x.ink.a) && Share(x.ground.a)
    ensures var y := ThroughAll(x, layers);
            && y.Pixel? && y.enhanced == x.enhanced && y.image == x.image && Share(y.ink.a) && Share(y.ground.a)
            && LightOf(Over(y.ink, WHITE)) == LightOver(LightOf(x.ink), LightOf(Painted(layers)))
            && LightOf(Over(y.ground, WHITE)) == LightOver(LightOf(x.ground), LightOf(Painted(layers)))
    decreases layers
  {
    if layers == [] {
      OverLight(x.ink, WHITE);
      OverLight(x.ground, WHITE);
    } else {
      var p, rest := layers[|layers| - 1], layers[..|layers| - 1];
      BlendLight(x.ink, p);
      BlendLight(x.ground, p);
      FoldIsPainting(Through(x, p), rest);
      PaintedOpaque(rest);
      OverLight(p.background, Painted(rest));
      LightAssociative(LightOf(x.ink), LightOf(p.background), LightOf(Painted(rest)));
      LightAssociative(LightOf(x.ground), LightOf(p.background), LightOf(Painted(rest)));
    }
  }

  /** On plain layers the fold from the inside out agrees with painting from
      the canvas in: the ink lies over the painting, and the ground is the painting. */
  lemma {:induction false} PainterOrder(foreground: Value, layers: seq<PaintLayer>, distance: Distance)
    requires foreground.known && Share(foreground.rgba.a) && Plain(layers)
    requires layers == [] || (layers[|layers| - 1].glyphKnown && layers[|layers| - 1].shadowKnown)
    ensures var ink, ground := Over(foreground.rgba, Painted(layers)), Painted(layers);
            ColourOf(foreground, layers, distance) == Resolved(ink, ground, distance(ink, ground))
  {
    var x := Pixel(foreground.rgba, CLEAR, false, false);
    assert Started(foreground, layers) == x;
    FinalPaint(x, layers);
  }

  lemma {:induction false} FinalPaint(x: Pixel, layers: seq<PaintLayer>)
    requires Plain(layers) && x.Pixel? && Share(x.ink.a) && x.ground == CLEAR
    ensures var y := ThroughAll(x, layers);
            && y.Pixel? && y.enhanced == x.enhanced && y.image == x.image
            && Over(y.ink, WHITE) == Over(x.ink, Painted(layers)) && Over(y.ground, WHITE) == Painted(layers)
  {
    var y, painting := ThroughAll(x, layers), Painted(layers);
    FoldIsPainting(x, layers);
    PaintedOpaque(layers);
    OverLight(x.ink, painting);
    OpaqueUnder(x.ink, painting);
    SameLight(Over(y.ink, WHITE), Over(x.ink, painting));
    assert LightOver(LightOf(CLEAR), LightOf(painting)) == LightOf(painting);
    SameLight(Over(y.ground, WHITE), painting);
  }

  lemma {:induction false} OpaqueUnder(c: RGBA, d: RGBA)
    requires d.a == 1.0
    ensures Over(c, d).a == 1.0
  {
  }

  lemma {:induction false} SameLight(c: RGBA, d: RGBA)
    requires LightOf(c) == LightOf(d) && d.a == 1.0
    ensures c == d
  {
  }

  /* Groups. */

  datatype Primary = Red | Green | Blue

  function Of(k: Primary, c: RGBA): real {
    match k
    case Red => c.r
    case Green => c.g
    case Blue => c.b
  }

  function Mixed(share: real, x: real, y: real): real {
    share * x + (1.0 - share) * y
  }

  /** A colour laid on an opaque one. */
  function Laid(k: Primary, c: RGBA, on: real): real {
    Mixed(c.a, Of(k, c), on)
  }

  /** Painting from the canvas in, outermost group first: a group is its background
      with all that is inside it painted on, and shows over what is outside by its
      opacity. */
  function PaintedOn(k: Primary, layers: seq<PaintLayer>, on: real, top: RGBA): real {
    if layers == [] then Laid(k, top, on)
    else Mixed(layers[0].opacity, PaintedOn(k, layers[1..], Laid(k, layers[0].background, on), top), on)
  }

  /** What a white canvas shows in the end. */
  function Canvas(layers: seq<PaintLayer>, top: RGBA): RGBA {
    RGBA(PaintedOn(Red, layers, 1.0, top), PaintedOn(Green, layers, 1.0, top), PaintedOn(Blue, layers, 1.0, top), 1.0)
  }

  /** Everything in the layers is known. */
  predicate Understood(layers: seq<PaintLayer>) {
    forall i :: 0 <= i < |layers| ==>
      && layers[i].backgroundKnown && layers[i].imageKnown && layers[i].opacityKnown && Share(layers[i].opacity)
      && layers[i].compositionKnown && layers[i].enhancementKnown && Share(layers[i].background.a)
  }

  predicate OwnerKnown(layers: seq<PaintLayer>) {
    layers == [] || (layers[|layers| - 1].glyphKnown && layers[|layers| - 1].shadowKnown)
  }

  lemma {:induction false} OverShows(k: Primary, c: RGBA, d: RGBA, on: real) returns (o: RGBA)
    requires Share(c.a) && Share(d.a)
    ensures o == Over(c, d) && Laid(k, o, on) == Laid(k, c, Laid(k, d, on)) && Share(o.a)
  {
    o := Over(c, d);
    OverLight(c, d);
    LightShows(k, c, d, o, on);
  }

  lemma {:induction false} LightShows(k: Primary, c: RGBA, d: RGBA, o: RGBA, on: real)
    requires LightOf(o) == LightOver(LightOf(c), LightOf(d))
    ensures Laid(k, o, on) == Laid(k, c, Laid(k, d, on))
  {
    assert LightOf(o).a == Under(c.a, c.a, d.a);
    LaidTwice(Of(k, c), c.a, Of(k, d), d.a, on, Of(k, o));
  }

  lemma {:induction false} LaidTwice(c: real, ca: real, d: real, da: real, on: real, x: real)
    requires x * Under(ca, ca, da) == Under(c * ca, ca, d * da)
    ensures Mixed(Under(ca, ca, da), x, on) == Mixed(ca, c, Mixed(da, d, on))
  {
    assert 1.0 - Under(ca, ca, da) == (1.0 - ca) * (1.0 - da);
    assert (1.0 - ca) * Mixed(da, d, on) == (1.0 - ca) * (da * d) + (1.0 - ca) * ((1.0 - da) * on);
    assert (1.0 - ca) * (1.0 - da) * on == (1.0 - ca) * ((1.0 - da) * on);
    assert d * da * (1.0 - ca) == (1.0 - ca) * (da * d);
  }

  lemma {:induction false} FadedShows(k: Primary, c: RGBA, share: real, on: real)
    requires Share(c.a) && Share(share)
    ensures Laid(k, c.(a := c.a * share), on) == Mixed(share, Laid(k, c, on), on) && Share(c.a * share)
  {
    Nonnegative(c.a, share);
    Nonnegative(c.a, 1.0 - share);
    assert c.a * (1.0 - share) == c.a - c.a * share;
    FadedMix(Of(k, c), c.a, share, on);
  }

  lemma {:induction false} FadedMix(x: real, a: real, share: real, on: real)
    ensures Mixed(a * share, x, on) == Mixed(share, Mixed(a, x, on), on)
  {
    assert share * Mixed(a, x, on) == share * (a * x) + share * ((1.0 - a) * on);
    assert share * ((1.0 - a) * on) == share * on - share * a * on;
    assert a * share * x == share * (a * x) && a * share * on == share * a * on;
  }

  lemma {:induction false} BlendShows(k: Primary, c: RGBA, p: PaintLayer, on: real)
    requires Share(c.a) && Share(p.opacity) && Share(p.background.a)
    ensures Laid(k, Blend(c, p), on) == Mixed(p.opacity, Laid(k, c, Laid(k, p.background, on)), on)
    ensures Share(Blend(c, p).a)
  {
    var o := Blended(k, c, p, on);
    FadedShows(k, o, p.opacity, on);
  }

  lemma {:induction false} Blended(k: Primary, c: RGBA, p: PaintLayer, on: real) returns (o: RGBA)
    requires Share(c.a) && Share(p.background.a)
    ensures Blend(c, p) == o.(a := o.a * p.opacity) && Share(o.a)
    ensures Laid(k, o, on) == Laid(k, c, Laid(k, p.background, on))
  {
    if c.a < 1.0 {
      o := OverShows(k, c, p.background, on);
    } else {
      o := c;
      OpaqueShows(k, c, on, Laid(k, p.background, on));
    }
  }

  lemma {:induction false} OpaqueShows(k: Primary, c: RGBA, on: real, other: real)
    requires c.a == 1.0
    ensures Laid(k, c, on) == Laid(k, c, other) == Of(k, c)
  {
  }

  /** Folding outwards shows what painting inwards does, on any canvas. */
  lemma {:induction false} FoldShows(k: Primary, x: Pixel, layers: seq<PaintLayer>, on: real)
    requires Understood(layers) && x.Pixel? && Share(x.ink.a) && Share(x.ground.a)
    ensures var y := ThroughAll(x, layers);
            && y.Pixel? && y.enhanced == x.enhanced && y.image == x.image && Share(y.ink.a) && Share(y.ground.a)
            && Laid(k, y.ink, on) == PaintedOn(k, layers, on, x.ink)
            && Laid(k, y.ground, on) == PaintedOn(k, layers, on, x.ground)
    decreases layers
  {
    if layers != [] {
      var p, rest := layers[0], layers[1..];
      var under := Laid(k, p.background, on);
      FoldShows(k, x, rest, under);
      assert [p] + rest == layers;
      ThroughConcat(x, [p], rest);
      var y := ThroughAll(x, rest);
      assert [p][..0] == [] && ThroughAll(y, [p]) == ThroughAll(Through(y, p), []);
      BlendShows(k, y.ink, p, on);
      BlendShows(k, y.ground, p, on);
    }
  }

  lemma {:induction false} OverWhite(c: RGBA)
    ensures Over(c, WHITE) == RGBA(Laid(Red, c, 1.0), Laid(Green, c, 1.0), Laid(Blue, c, 1.0), 1.0)
  {
    assert forall k :: Laid(k, c, 1.0) == Of(k, c) * c.a + 1.0 * 1.0 * (1.0 - c.a);
    assert Laid(Red, c, 1.0) == c.r * c.a + (1.0 - c.a) && Laid(Green, c, 1.0) == c.g * c.a + (1.0 - c.a);
    assert Laid(Blue, c, 1.0) == c.b * c.a + (1.0 - c.a);
  }

  /** For understood layers with any opacities, the fold from the inside out gives
      the two pixels that painting from the canvas in does. */
  lemma {:induction false} GroupOrder(foreground: Value, layers: seq<PaintLayer>, distance: Distance)
    requires foreground.known && Share(foreground.rgba.a) && Understood(layers) && OwnerKnown(layers)
    ensures var ink, ground := Canvas(layers, foreground.rgba), Canvas(layers, CLEAR);
            ColourOf(foreground, layers, distance) == Resolved(ink, ground, distance(ink, ground))
  {
    var x := Pixel(foreground.rgba, CLEAR, false, false);
    assert Started(foreground, layers) == x;
    forall k {
      FoldShows(k, x, layers, 1.0);
    }
    FoldShows(Red, x, layers, 1.0);
    var y := ThroughAll(x, layers);
    OverWhite(y.ink);
    OverWhite(y.ground);
  }

  lemma {:induction false} NothingShows(k: Primary, layers: seq<PaintLayer>, i: nat, on: real, top: RGBA, other: RGBA)
    requires i < |layers| && layers[i].opacity == 0.0
    ensures PaintedOn(k, layers, on, top) == PaintedOn(k, layers, on, other)
  {
    if i > 0 {
      NothingShows(k, layers[1..], i - 1, Laid(k, layers[0].background, on), top, other);
    }
  }

  /** A group of no opacity hides the text wholly: ink and ground are the same. */
  lemma {:induction false} ClearGroupHides(foreground: Value, layers: seq<PaintLayer>, i: nat, distance: Distance)
    requires foreground.known && Share(foreground.rgba.a) && Understood(layers) && OwnerKnown(layers)
    requires i < |layers| && layers[i].opacity == 0.0
    ensures var c := ColourOf(foreground, layers, distance); c.Resolved? && c.foreground == c.background
  {
    GroupOrder(foreground, layers, distance);
    NothingShows(Red, layers, i, 1.0, foreground.rgba, CLEAR);
    NothingShows(Green, layers, i, 1.0, foreground.rgba, CLEAR);
    NothingShows(Blue, layers, i, 1.0, foreground.rgba, CLEAR);
  }

  /** Opaque ink in one clear group shows over white by the group's opacity. */
  lemma {:induction false} FadedInk(foreground: Value, p: PaintLayer, distance: Distance)
    requires foreground.known && foreground.rgba.a == 1.0 && Understood([p]) && p.glyphKnown && p.shadowKnown
    requires p.background.a == 0.0
    ensures var c, ink, o := ColourOf(foreground, [p], distance), foreground.rgba, p.opacity;
            && c.Resolved? && c.background == WHITE
            && c.foreground == RGBA(o * ink.r + (1.0 - o), o * ink.g + (1.0 - o), o * ink.b + (1.0 - o), 1.0)
  {
    GroupOrder(foreground, [p], distance);
    FadedChannel(Red, foreground.rgba, p);
    FadedChannel(Green, foreground.rgba, p);
    FadedChannel(Blue, foreground.rgba, p);
  }

  lemma {:induction false} FadedChannel(k: Primary, ink: RGBA, p: PaintLayer)
    requires ink.a == 1.0 && p.background.a == 0.0
    ensures PaintedOn(k, [p], 1.0, ink) == p.opacity * Of(k, ink) + (1.0 - p.opacity)
    ensures PaintedOn(k, [p], 1.0, CLEAR) == 1.0
  {
    assert [p][1..] == [];
    assert Laid(k, p.background, 1.0) == 1.0;
    assert PaintedOn(k, [], 1.0, ink) == Laid(k, ink, 1.0) == Of(k, ink);
    assert PaintedOn(k, [], 1.0, CLEAR) == 1.0;
  }

  /* Nothing is guessed. */

  /** What is known of a layer suffices for the pixel that reaches it. */
  predicate Suffices(x: Pixel, layers: seq<PaintLayer>, i: nat)
    requires i < |layers|
  {
    var p, y := layers[i], ThroughAll(x, layers[i + 1..]);
    && p.compositionKnown && p.opacityKnown
    && (y.Pixel? && (y.ink.a < 1.0 || y.ground.a < 1.0) ==> p.backgroundKnown && p.imageKnown)
  }

  predicate Enhanced(layers: seq<PaintLayer>) {
    exists i :: 0 <= i < |layers| && !layers[i].enhancementKnown
  }

  lemma {:induction false} SufficesExactly(x: Pixel, layers: seq<PaintLayer>)
    requires x.Pixel?
    ensures var y := ThroughAll(x, layers);
            && (y.Pixel? && !y.image <==> !x.image && forall i :: 0 <= i < |layers| ==> Suffices(x, layers, i))
            && (y.Pixel? ==> (y.enhanced <==> x.enhanced || Enhanced(layers)))
    decreases layers
  {
    if layers != [] {
      var p, rest := layers[0], layers[1..];
      SufficesExactly(x, rest);
      assert [p] + rest == layers;
      ThroughConcat(x, [p], rest);
      var y := ThroughAll(x, rest);
      assert [p][..0] == [] && ThroughAll(y, [p]) == ThroughAll(Through(y, p), []) == Through(y, p);
      assert layers[0 + 1..] == rest;
      SufficesShift(x, layers);
      assert Enhanced(layers) <==> !p.enhancementKnown || Enhanced(rest) by {
        if Enhanced(rest) {
          var i :| 0 <= i < |rest| && !rest[i].enhancementKnown;
          assert !layers[i + 1].enhancementKnown;
        }
      }
    }
  }

  lemma {:induction false} SufficesShift(x: Pixel, layers: seq<PaintLayer>)
    requires layers != []
    ensures (forall i :: 0 <= i < |layers| ==> Suffices(x, layers, i)) <==>
            Suffices(x, layers, 0) && forall i :: 0 <= i < |layers| - 1 ==> Suffices(x, layers[1..], i)
  {
    var rest := layers[1..];
    forall i | 0 <= i < |rest|
      ensures Suffices(x, layers, i + 1) == Suffices(x, rest, i)
    {
      assert layers[i + 1 + 1..] == rest[i + 1..];
    }
    if Suffices(x, layers, 0) && forall i :: 0 <= i < |rest| ==> Suffices(x, rest, i) {
      forall i | 0 <= i < |layers|
        ensures Suffices(x, layers, i)
      {
        if i > 0 {
          assert Suffices(x, rest, i - 1);
        }
      }
    }
  }

  /** A colour is resolved exactly when all that bears on it is known; text is
      called concealed only when, besides, no effect could set it off. */
  lemma {:induction false} ResolvedExactly(foreground: Value, layers: seq<PaintLayer>, distance: Distance)
    ensures var c, x := ColourOf(foreground, layers, distance), Pixel(foreground.rgba, CLEAR, false, false);
            && (c.Resolved? ==> foreground.known && (layers == [] || layers[|layers| - 1].glyphKnown))
            && (c.Resolved? ==> forall i :: 0 <= i < |layers| ==> Suffices(x, layers, i))
            && (c.Resolved? && Concealed(c.distance) ==> OwnerKnown(layers) && !Enhanced(layers))
            && ((foreground.known && OwnerKnown(layers) && !Enhanced(layers) &&
                 forall i :: 0 <= i < |layers| ==> Suffices(x, layers, i)) ==> c.Resolved?)
  {
    var x, s := Pixel(foreground.rgba, CLEAR, false, false), Started(foreground, layers);
    if s.Lost? {
      LostStays(s.uncertainty, layers);
    } else {
      SufficesExactly(s, layers);
      forall i | 0 <= i < |layers|
        ensures Suffices(s, layers, i) == Suffices(x, layers, i)
      {
        EnhancementApart(x, s.enhanced, layers[i + 1..]);
      }
    }
  }

  /** Unknown effects change nothing else. */
  lemma {:induction false} EnhancementApart(x: Pixel, enhanced: bool, layers: seq<PaintLayer>)
    requires x.Pixel?
    ensures var y, z := ThroughAll(x, layers), ThroughAll(x.(enhanced := enhanced), layers);
            y.Pixel? == z.Pixel? && (y.Pixel? ==> y.ink == z.ink && y.ground == z.ground)
    decreases layers
  {
    if layers != [] {
      var p, rest := layers[|layers| - 1], layers[..|layers| - 1];
      var y, z := Through(x, p), Through(x.(enhanced := enhanced), p);
      if y.Pixel? {
        EnhancementApart(y, z.enhanced, rest);
      } else {
        LostStays(y.uncertainty, rest);
        LostStays(z.uncertainty, rest);
      }
    }
  }

  /* The canvas rule. */

  /** The body's background moves to a root that paints none. */
  function Propagated(layers: seq<PaintLayer>): seq<PaintLayer> {
    if |layers| < 2 then layers
    else
      var root, body := layers[|layers| - 2], layers[|layers| - 1];
      if root.displayNone || body.displayNone || !root.backgroundKnown || root.background.a != 0.0 ||
          !root.imageKnown then layers
      else
        layers[|layers| - 2 := root.(background := body.background, backgroundKnown := body.backgroundKnown,
                                     imageKnown := body.imageKnown)]
              [|layers| - 1 := body.(background := CLEAR, backgroundKnown := true, imageKnown := true)]
  }

  /** Moving the background is invisible unless the body is itself translucent
      or one of the two groups is not understood. */
  lemma {:induction false} PropagationInvisible(foreground: Value, layers: seq<PaintLayer>, distance: Distance)
    requires |layers| >= 2
    requires var root, body := layers[|layers| - 2], layers[|layers| - 1];
             body.opacity == 1.0 && body.opacityKnown && body.compositionKnown && root.opacityKnown &&
                 root.compositionKnown
    ensures ColourOf(foreground, Propagated(layers), distance) == ColourOf(foreground, layers, distance)
  {
    var n, moved := |layers|, Propagated(layers);
    var root, body := layers[n - 2], layers[n - 1];
    if moved != layers {
      var x, rest := Started(foreground, layers), layers[..n - 2];
      TopTwo(x, layers);
      TopTwo(x, moved);
      assert moved[..n - 2] == rest;
      MovedThrough(x, root, body);
      SameThroughAll(Through(Through(x, moved[n - 1]), moved[n - 2]), Through(Through(x, body), root), rest);
      SameFinish(ThroughAll(x, moved), ThroughAll(x, layers), distance);
    }
  }

  lemma {:induction false} TopTwo(x: Pixel, layers: seq<PaintLayer>)
    requires |layers| >= 2
    ensures ThroughAll(x, layers) ==
            ThroughAll(Through(Through(x, layers[|layers| - 1]), layers[|layers| - 2]), layers[..|layers| - 2])
  {
    var rest := layers[..|layers| - 1];
    assert rest[..|rest| - 1] == layers[..|layers| - 2];
  }

  lemma {:induction false} MovedThrough(x: Pixel, root: PaintLayer, body: PaintLayer)
    requires body.opacity == 1.0 && body.opacityKnown && body.compositionKnown && root.opacityKnown &&
             root.compositionKnown
    requires root.backgroundKnown && root.background.a == 0.0 && root.imageKnown
    ensures var canvas := root.(background := body.background, backgroundKnown := body.backgroundKnown,
                                imageKnown := body.imageKnown);
            SamePixel(Through(Through(x, body.(background := CLEAR, backgroundKnown := true, imageKnown := true)),
                              canvas),
                      Through(Through(x, body), root))
  {
    if x.Pixel? {
      var clear := body.(background := CLEAR, backgroundKnown := true, imageKnown := true);
      var canvas := root.(background := body.background, backgroundKnown := body.backgroundKnown,
                          imageKnown := body.imageKnown);
      var y := Pixel(Blend(x.ink, clear), Blend(x.ground, clear), x.enhanced || !body.enhancementKnown, x.image);
      assert Through(x, clear) == y;
      NeutralBlend(x.ink, clear);
      NeutralBlend(x.ground, clear);
      var covered := x.ink.a >= 1.0 && x.ground.a >= 1.0;
      assert covered == (y.ink.a >= 1.0 && y.ground.a >= 1.0);
      if covered || body.backgroundKnown {
        var image := x.image || (!covered && !body.imageKnown);
        var enhanced := y.enhanced || !root.enhancementKnown;
        assert Through(y, canvas) == Pixel(Blend(y.ink, canvas), Blend(y.ground, canvas), enhanced, image);
        assert Through(x, body) == Pixel(Blend(x.ink, body), Blend(x.ground, body), y.enhanced, image);
        assert Through(Through(x, body), root) ==
               Pixel(Blend(Blend(x.ink, body), root), Blend(Blend(x.ground, body), root), enhanced, image);
        MovedBlend(x.ink, root, body);
        MovedBlend(x.ground, root, body);
      }
    }
  }

  lemma {:induction false} MovedBlend(c: RGBA, root: PaintLayer, body: PaintLayer)
    requires body.opacity == 1.0 && root.background.a == 0.0
    ensures var clear := body.(background := CLEAR, backgroundKnown := true, imageKnown := true);
            var canvas := root.(background := body.background, backgroundKnown := body.backgroundKnown,
                                imageKnown := body.imageKnown);
            SamePaint(Blend(Blend(c, clear), canvas), Blend(Blend(c, body), root))
  {
    var clear := body.(background := CLEAR, backgroundKnown := true, imageKnown := true);
    var canvas := root.(background := body.background, backgroundKnown := body.backgroundKnown,
                        imageKnown := body.imageKnown);
    NeutralBlend(c, clear);
    SameBlend(Blend(c, clear), c, canvas);
    var inner := Blend(c, body);
    var plain := root.(opacity := 1.0);
    NeutralBlend(inner, plain);
    assert Blend(inner, root) == Blend(inner, plain).(a := Blend(inner, plain).a * root.opacity);
  }
}
