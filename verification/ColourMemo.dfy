/** The one-entry colour memo over the changing stack of paint layers. */
module ColourMemo {
  import opened PaintColours

  const LINK_DEFAULT := "link-default"

  /** The colour of a text on a stack, with the visited variant of a default
      link colour checked against it. */
  function FreshColour(foreground: Value, layers: seq<PaintLayer>, distance: Distance): ColourResult {
    var result := ColourOf(foreground, layers, distance);
    if foreground.text == LINK_DEFAULT && result.Resolved? then
      var alternate := ColourOf(foreground.(rgba := VISITED), layers, distance);
      if !alternate.Resolved? || Concealed(result.distance) != Concealed(alternate.distance)
      then Uncertain("visited link colour")
      else result
    else result
  }

  datatype Memo = Memo(foreground: Value, result: ColourResult, generation: nat, valid: bool)

  /** The layer under which the text of `p` would look the same. */
  predicate Inherits(parent: PaintLayer, p: PaintLayer) {
    p.ColourNeutral() && parent.glyphKnown == p.glyphKnown && parent.shadowKnown == p.shadowKnown
  }

  /** Entering a layer that changes nothing leaves every colour as it was. */
  lemma {:induction false} InheritedColour(foreground: Value, layers: seq<PaintLayer>, p: PaintLayer,
                                           distance: Distance)
    requires layers != [] && Inherits(layers[|layers| - 1], p)
    ensures FreshColour(foreground, layers + [p], distance) == FreshColour(foreground, layers, distance)
  {
    assert layers + [] == layers && layers + [p] + [] == layers + [p];
    NeutralInsertion(foreground, layers, p, [], distance);
    NeutralInsertion(foreground.(rgba := VISITED), layers, p, [], distance);
  }

  /** The memo holds what a fresh evaluation would give, stated so that it
      unfolds only where a proof names `Colours`. */
  ghost predicate Current(memo: Memo, layers: seq<PaintLayer>, distance: Distance) {
    forall f {:trigger Colours(memo, f, layers, distance)} :: f == memo.foreground ==>
        Colours(memo, f, layers, distance)
  }

  predicate Colours(memo: Memo, foreground: Value, layers: seq<PaintLayer>, distance: Distance) {
    memo.result == FreshColour(foreground, layers, distance)
  }

  lemma {:induction false} CurrentInherits(memo: Memo, layers: seq<PaintLayer>, p: PaintLayer, distance: Distance)
    requires layers != [] && Inherits(layers[|layers| - 1], p)
    ensures Current(memo, layers + [p], distance) <==> Current(memo, layers, distance)
  {
    InheritedColour(memo.foreground, layers, p, distance);
    assert Colours(memo, memo.foreground, layers + [p], distance) <==> Colours(memo, memo.foreground, layers, distance);
  }

  /** Two layers under which text on an otherwise empty canvas looks the same. */
  predicate LooksLike(p: PaintLayer, q: PaintLayer) {
    p.glyphKnown == q.glyphKnown && (p.glyphKnown ==> p.shadowKnown == q.shadowKnown)
  }

  /** One neutral outermost layer is as good as another that looks like it. */
  lemma {:induction false} ExchangedColour(foreground: Value, p: PaintLayer, q: PaintLayer, distance: Distance)
    requires p.ColourNeutral() && q.ColourNeutral() && LooksLike(p, q)
    ensures ColourOf(foreground, [p], distance) == ColourOf(foreground, [q], distance)
  {
    if foreground.known && p.glyphKnown {
      assert [] + [p] + [q] == [p, q] && [] + [q] == [q] && [p] + [] == [p] && [p] + [q] + [] == [p, q];
      NeutralInsertion(foreground, [], p, [q], distance);
      NeutralInsertion(foreground, [p], q, [], distance);
    } else {
      var why := if foreground.known then "unsupported glyph effect" else "unresolved foreground";
      LostStays(why, [p]);
      LostStays(why, [q]);
    }
  }

  lemma {:induction false} CurrentExchanged(memo: Memo, p: PaintLayer, q: PaintLayer, distance: Distance)
    requires p.ColourNeutral() && q.ColourNeutral() && LooksLike(p, q)
    ensures Current(memo, [p], distance) <==> Current(memo, [q], distance)
  {
    ExchangedColour(memo.foreground, p, q, distance);
    ExchangedColour(memo.foreground.(rgba := VISITED), p, q, distance);
    assert Colours(memo, memo.foreground, [p], distance) <==> Colours(memo, memo.foreground, [q], distance);
  }

  /* The machine. */

  /** What happens to the stack during one viewing case. */
  datatype Event = Enter(paint: PaintLayer, body: bool) | Leave | Query(foreground: Value)

  /** `changes` says of each open element whether entering it changed colour
      composition. `left` is the outermost layer that was left last, unless that
      started a new generation. */
  datatype Stack = Stack(layers: seq<PaintLayer>, changes: seq<bool>, generation: nat, memo: Memo,
                         left: seq<PaintLayer>)

  const NO_MEMO := Memo(Value("", 0.0, false, CLEAR), Uncertain(""), 0, false)
  const EMPTY := Stack([], [], 0, NO_MEMO, [])

  function LayersAfter(layers: seq<PaintLayer>, e: Event): seq<PaintLayer> {
    match e
    case Enter(p, body) => if body then Propagated(layers + [p]) else layers + [p]
    case Leave => if layers == [] then [] else layers[..|layers| - 1]
    case Query(_) => layers
  }

  predicate Changes(layers: seq<PaintLayer>, p: PaintLayer, body: bool) {
    body || !p.ColourNeutral() || (layers != [] && !Inherits(layers[|layers| - 1], p))
  }

  function Entered(s: Stack, p: PaintLayer, body: bool): Stack {
    var changed := Changes(s.layers, p, body);
    s.(layers := LayersAfter(s.layers, Enter(p, body)), changes := s.changes + [changed],
       generation := s.generation + if changed then 1 else 0)
  }

  function Departed(s: Stack): Stack
    requires s.layers != [] && |s.changes| == |s.layers|
  {
    var n := |s.layers| - 1;
    s.(layers := s.layers[..n], changes := s.changes[..n], generation := s.generation + if s.changes[n] then 1 else 0,
       left := if n > 0 then s.left else if s.changes[0] then [] else s.layers)
  }

  predicate Hit(s: Stack, foreground: Value) {
    s.memo.valid && s.memo.generation == s.generation && s.memo.foreground == foreground
  }

  function Answered(s: Stack, foreground: Value, distance: Distance): (Stack, ColourResult) {
    if Hit(s, foreground) then (s, s.memo.result)
    else
      var result := FreshColour(foreground, s.layers, distance);
      (s.(memo := Memo(foreground, result, s.generation, true)), result)
  }

  /** Elements are left in turn, and colours are asked for inside elements only. */
  predicate Follows(layers: seq<PaintLayer>, e: Event) {
    e.Enter? || layers != []
  }

  /** No stale answer can follow. An unflagged outermost layer must look like the
      one it replaces, and propagation must leave an unflagged inner layer alone. */
  predicate Harmless(s: Stack, e: Event) {
    e.Enter? ==>
      && (s.layers == [] && s.left != [] && !Changes([], e.paint, e.body) ==>
          s.left[0].ColourNeutral() && LooksLike(s.left[0], e.paint))
      && (e.body && |s.layers| >= 2 && |s.changes| == |s.layers| && !s.changes[|s.layers| - 1] ==>
            Propagated(s.layers + [e.paint])[|s.layers| - 1] == s.layers[|s.layers| - 1])
  }

  function After(s: Stack, e: Event, distance: Distance): (Stack, seq<ColourResult>)
    requires |s.changes| == |s.layers| && Follows(s.layers, e)
  {
    match e
    case Enter(p, body) => (Entered(s, p, body), [])
    case Leave => (Departed(s), [])
    case Query(f) => var (t, result) := Answered(s, f, distance); (t, [result])
  }

  function AnswerTo(layers: seq<PaintLayer>, e: Event, distance: Distance): seq<ColourResult> {
    if e.Query? then [FreshColour(e.foreground, layers, distance)] else []
  }

  /** An unflagged inner layer is invisible to the layers around it, and a current
      memo is what a fresh evaluation would give, now or under the layer left last.
      Stated so that it unfolds only where a proof names `SoundFor`. */
  ghost predicate Sound(s: Stack, distance: Distance) {
    forall t {:trigger SoundFor(t, distance)} :: t == s ==> SoundFor(t, distance)
  }

  ghost predicate SoundFor(s: Stack, distance: Distance) {
    && |s.changes| == |s.layers| && |s.left| <= 1
    && (forall i :: 1 <= i < |s.layers| && !s.changes[i] ==> Inherits(s.layers[i - 1], s.layers[i]))
    && (s.memo.valid ==> s.memo.generation <= s.generation)
    && (s.memo.valid && s.memo.generation == s.generation ==>
          if s.layers != [] then Current(s.memo, s.layers, distance)
          else s.left != [] && Current(s.memo, s.left, distance))
  }

  lemma {:induction false} EnteredSound(s: Stack, p: PaintLayer, body: bool, distance: Distance)
    requires Sound(s, distance) && Harmless(s, Enter(p, body))
    ensures Sound(Entered(s, p, body), distance)
  {
    assert SoundFor(s, distance);
    var t := Entered(s, p, body);
    if !Changes(s.layers, p, body) {
      if s.layers != [] {
        CurrentInherits(s.memo, s.layers, p, distance);
      } else if s.left != [] {
        assert s.left == [s.left[0]] && t.layers == [p];
        CurrentExchanged(s.memo, s.left[0], p, distance);
      }
    }
    EnteredInherits(s, p, body);
    assert SoundFor(t, distance);
  }

  lemma {:induction false} EnteredInherits(s: Stack, p: PaintLayer, body: bool)
    requires |s.changes| == |s.layers| && Harmless(s, Enter(p, body))
    requires forall i :: 1 <= i < |s.layers| && !s.changes[i] ==> Inherits(s.layers[i - 1], s.layers[i])
    ensures var t := Entered(s, p, body);
            |t.layers| == |t.changes| && forall i :: 1 <= i < |t.layers| && !t.changes[i] ==>
                Inherits(t.layers[i - 1], t.layers[i])
  {
    var t, n := Entered(s, p, body), |s.layers|;
    forall i | 1 <= i < |t.layers| && !t.changes[i]
      ensures Inherits(t.layers[i - 1], t.layers[i])
    {
      if i < n {
        assert t.changes[i] == s.changes[i];
        assert Inherits(s.layers[i - 1], s.layers[i]);
      }
    }
  }

  lemma {:induction false} DepartedSound(s: Stack, distance: Distance)
    requires Sound(s, distance) && s.layers != [] && |s.changes| == |s.layers|
    ensures Sound(Departed(s), distance)
  {
    assert SoundFor(s, distance);
    var t, n := Departed(s), |s.layers| - 1;
    if !s.changes[n] && n > 0 {
      assert s.layers == t.layers + [s.layers[n]];
      CurrentInherits(s.memo, t.layers, s.layers[n], distance);
    }
    assert forall i :: 0 <= i < n ==> t.layers[i] == s.layers[i] && t.changes[i] == s.changes[i];
    assert SoundFor(t, distance);
  }

  lemma {:induction false} AnsweredSound(s: Stack, foreground: Value, distance: Distance)
    requires Sound(s, distance) && s.layers != []
    ensures Sound(Answered(s, foreground, distance).0, distance)
    ensures Answered(s, foreground, distance).1 == FreshColour(foreground, s.layers, distance)
  {
    assert SoundFor(s, distance);
    var (t, result) := Answered(s, foreground, distance);
    if Hit(s, foreground) {
      assert Colours(s.memo, foreground, s.layers, distance);
    } else {
      assert Colours(t.memo, foreground, t.layers, distance);
    }
    assert SoundFor(t, distance);
  }

  /** A harmless event keeps the memo sound and is answered afresh. */
  lemma {:induction false} AfterSound(s: Stack, e: Event, distance: Distance)
    requires Sound(s, distance) && |s.changes| == |s.layers| && Follows(s.layers, e) && Harmless(s, e)
    ensures var (t, answers) := After(s, e, distance);
            Sound(t, distance) && |t.changes| == |t.layers| && t.layers == LayersAfter(s.layers, e) &&
                answers == AnswerTo(s.layers, e, distance)
  {
    match e {
      case Enter(p, body) =>
        EnteredSound(s, p, body, distance);
        assert SoundFor(Entered(s, p, body), distance);
      case Leave =>
        DepartedSound(s, distance);
      case Query(foreground) =>
        AnsweredSound(s, foreground, distance);
    }
  }

  /* Whole viewing cases. */

  /** Every query answered afresh on the stack it meets. */
  function Answers(layers: seq<PaintLayer>, events: seq<Event>, distance: Distance): seq<ColourResult>
    decreases events
  {
    if events == [] then []
    else AnswerTo(layers, events[0], distance) + Answers(LayersAfter(layers, events[0]), events[1..], distance)
  }

  /** Every event is harmless where it happens. */
  predicate AllHarmless(s: Stack, events: seq<Event>, distance: Distance)
    requires |s.changes| == |s.layers|
    decreases events
  {
    events == [] ||
    (Follows(s.layers, events[0]) && Harmless(s, events[0]) &&
     var t := After(s, events[0], distance).0;
     |t.changes| == |t.layers| && AllHarmless(t, events[1..], distance))
  }

  /** The memo's answers. */
  function Remembered(s: Stack, events: seq<Event>, distance: Distance): seq<ColourResult>
    requires |s.changes| == |s.layers|
    decreases events
  {
    if events == [] || !Follows(s.layers, events[0]) then []
    else
      var (t, answers) := After(s, events[0], distance);
      if |t.changes| != |t.layers| then answers else answers + Remembered(t, events[1..], distance)
  }

  /** Elements are left in turn and colours are asked for inside elements, all along. */
  predicate Walks(layers: seq<PaintLayer>, events: seq<Event>)
    decreases events
  {
    events == [] || (Follows(layers, events[0]) && Walks(LayersAfter(layers, events[0]), events[1..]))
  }

  /** After `i` events these answers were given and this is the stack. It unfolds
      only where a proof names `ReachedFor`. */
  ghost predicate Reached(start: Stack, events: seq<Event>, i: nat, answers: seq<ColourResult>, s: Stack,
                          distance: Distance)
    requires |start.changes| == |start.layers|
  {
    forall k: nat {:trigger ReachedFor(start, events, k, answers, s, distance)} ::
      k == i ==> ReachedFor(start, events, k, answers, s, distance)
  }

  ghost predicate ReachedFor(start: Stack, events: seq<Event>, i: nat, answers: seq<ColourResult>, s: Stack,
                             distance: Distance)
    requires |start.changes| == |start.layers|
  {
    && i <= |events| && |s.changes| == |s.layers| && Walks(s.layers, events[i..])
    && Remembered(start, events, distance) == answers + Remembered(s, events[i..], distance)
  }

  lemma {:induction false} ReachedFirst(start: Stack, events: seq<Event>, distance: Distance)
    requires |start.changes| == |start.layers| && Walks(start.layers, events)
    ensures Reached(start, events, 0, [], start, distance)
  {
    assert events[0..] == events;
    assert ReachedFor(start, events, 0, [], start, distance);
  }

  lemma {:induction false} ReachedNext(start: Stack, events: seq<Event>, i: nat, answers: seq<ColourResult>, s: Stack,
                                       distance: Distance)
    requires |start.changes| == |start.layers| && i < |events| && Reached(start, events, i, answers, s, distance)
    ensures |s.changes| == |s.layers| && Follows(s.layers, events[i])
    ensures var (t, answer) := After(s, events[i], distance);
            Reached(start, events, i + 1, answers + answer, t, distance)
  {
    assert ReachedFor(start, events, i, answers, s, distance);
    assert events[i..][0] == events[i] && events[i..][1..] == events[i + 1..];
    var (t, answer) := After(s, events[i], distance);
    assert ReachedFor(start, events, i + 1, answers + answer, t, distance);
  }

  lemma {:induction false} ReachedLast(start: Stack, events: seq<Event>, answers: seq<ColourResult>, s: Stack,
                                       distance: Distance)
    requires |start.changes| == |start.layers| && Reached(start, events, |events|, answers, s, distance)
    ensures answers == Remembered(start, events, distance)
  {
    assert ReachedFor(start, events, |events|, answers, s, distance);
  }

  /** Whatever happens that is harmless, every answer is the fresh one. */
  lemma {:induction false} RememberedIsFresh(s: Stack, events: seq<Event>, distance: Distance)
    requires Sound(s, distance) && |s.changes| == |s.layers| && AllHarmless(s, events, distance)
    ensures Remembered(s, events, distance) == Answers(s.layers, events, distance)
    decreases events
  {
    if events != [] {
      AfterSound(s, events[0], distance);
      RememberedIsFresh(After(s, events[0], distance).0, events[1..], distance);
    }
  }

  /* When the condition holds, and what happens without it. */

  /** A document with one outermost element whose body, if any, is that element's
      child. */
  predicate OneRoot(layers: seq<PaintLayer>, events: seq<Event>, first: bool)
    decreases events
  {
    events == [] ||
    (Follows(layers, events[0]) &&
     (events[0].Enter? ==> (layers == [] ==> first) && (events[0].body ==> |layers| == 1)) &&
     OneRoot(LayersAfter(layers, events[0]), events[1..], false))
  }

  lemma {:induction false} OneRootIsHarmless(s: Stack, events: seq<Event>, first: bool, distance: Distance)
    requires |s.changes| == |s.layers| && OneRoot(s.layers, events, first) && (first ==> s.left == [])
    ensures AllHarmless(s, events, distance)
    decreases events
  {
    if events != [] {
      OneRootIsHarmless(After(s, events[0], distance).0, events[1..], false, distance);
    }
  }

  /** One outermost element after another, the same colour asked for in both. */
  function InTurn(p: PaintLayer, q: PaintLayer, f: Value): seq<Event> {
    [Enter(p, false), Query(f), Leave, Enter(q, false), Query(f)]
  }

  lemma {:induction false} InTurnAnswers(p: PaintLayer, q: PaintLayer, f: Value, distance: Distance)
    requires p.ColourNeutral() && q.ColourNeutral()
    ensures Remembered(EMPTY, InTurn(p, q, f), distance) ==
            [FreshColour(f, [p], distance), FreshColour(f, [p], distance)]
    ensures Answers([], InTurn(p, q, f), distance) == [FreshColour(f, [p], distance), FreshColour(f, [q], distance)]
  {
    var events := InTurn(p, q, f);
    var e1, e2, e3, e4 := events[1..], events[2..], events[3..], events[4..];
    var s1 := Entered(EMPTY, p, false);
    var s2 := Answered(s1, f, distance).0;
    var s3 := Departed(s2);
    var s4 := Entered(s3, q, false);
    assert s1.layers == [p] && s3.layers == [] && s4.layers == [q] && Hit(s4, f);
    assert e4[1..] == [] && e3[1..] == e4 && e2[1..] == e3 && e1[1..] == e2;
    assert Remembered(s4, e4, distance) == [s2.memo.result] + Remembered(s4, [], distance);
    assert Remembered(s3, e3, distance) == Remembered(s4, e4, distance);
    assert Remembered(s2, e2, distance) == Remembered(s3, e3, distance);
    assert Answers([q], e4, distance) == [FreshColour(f, [q], distance)] + Answers([q], [], distance);
    assert Answers([], e3, distance) == Answers([q], e4, distance);
    assert Answers([p], e2, distance) == Answers([], e3, distance);
  }

  /** White text under a neutral layer, against a white canvas. */
  lemma {:induction false} WhiteOnWhite(p: PaintLayer, distance: Distance)
    requires p.ColourNeutral()
    ensures FreshColour(Value("", 0.0, true, WHITE), [p], distance) ==
            if !p.glyphKnown then Uncertain("unsupported glyph effect")
            else if !p.shadowKnown && Concealed(distance(WHITE, WHITE))
            then Uncertain("unsupported image or composition effect")
            else Resolved(WHITE, WHITE, distance(WHITE, WHITE))
  {
    var f := Value("", 0.0, true, WHITE);
    var x := Started(f, [p]);
    OneLayer(x, p);
    if p.glyphKnown {
      WhiteThrough(p, !p.shadowKnown);
      WhiteFinished(!p.shadowKnown, distance);
    }
  }

  lemma {:induction false} WhiteFinished(enhanced: bool, distance: Distance)
    ensures Finished(Pixel(WHITE, CLEAR, enhanced, false), distance) ==
            if enhanced && Concealed(distance(WHITE, WHITE)) then Uncertain("unsupported image or composition effect")
            else Resolved(WHITE, WHITE, distance(WHITE, WHITE))
  {
    OnCanvas();
  }

  lemma {:induction false} OneLayer(x: Pixel, p: PaintLayer)
    ensures ThroughAll(x, [p]) == Through(x, p)
  {
    assert [p][..0] == [];
    assert ThroughAll(x, [p]) == ThroughAll(Through(x, p), []);
  }

  lemma {:induction false} WhiteThrough(p: PaintLayer, enhanced: bool)
    requires p.ColourNeutral()
    ensures var x := Pixel(WHITE, CLEAR, enhanced, false); Through(x, p) == x
  {
    NeutralBlends(p);
  }

  lemma {:induction false} NeutralBlends(p: PaintLayer)
    requires p.ColourNeutral()
    ensures Blend(CLEAR, p) == CLEAR && Blend(WHITE, p) == WHITE
  {
  }

  lemma {:induction false} OnCanvas()
    ensures Over(WHITE, WHITE) == WHITE && Over(CLEAR, WHITE) == WHITE
  {
    OpaqueOver(WHITE, WHITE);
    NothingOver(CLEAR, WHITE);
  }

  lemma {:induction false} OpaqueOver(c: RGBA, d: RGBA)
    requires c.a == 1.0
    ensures Over(c, d) == c
  {
    var x := Over(c, d);
    assert d.a * (1.0 - c.a) == 0.0 && d.r * d.a * (1.0 - c.a) == 0.0;
    assert d.g * d.a * (1.0 - c.a) == 0.0 && d.b * d.a * (1.0 - c.a) == 0.0;
    assert x.r == c.r && x.g == c.g && x.b == c.b;
  }

  lemma {:induction false} NothingOver(c: RGBA, d: RGBA)
    requires c.a == 0.0 && d.a == 1.0
    ensures Over(c, d) == d
  {
    var x := Over(c, d);
    assert c.r * c.a == 0.0 && c.g * c.a == 0.0 && c.b * c.a == 0.0;
    assert d.r * d.a * (1.0 - c.a) == d.r && d.g * d.a * (1.0 - c.a) == d.g && d.b * d.a * (1.0 - c.a) == d.b;
    assert x.r == d.r && x.g == d.g && x.b == d.b;
  }

  /** Two neutral outermost elements are answered afresh, whatever colour is asked
      for, exactly when text looks the same under both. */
  lemma {:induction false} SecondOutermost(p: PaintLayer, q: PaintLayer, distance: Distance)
    requires p.ColourNeutral() && q.ColourNeutral() && Concealed(distance(WHITE, WHITE))
    ensures (forall f :: Remembered(EMPTY, InTurn(p, q, f), distance) == Answers([], InTurn(p, q, f), distance)) <==>
              LooksLike(p, q)
  {
    forall f
      ensures Remembered(EMPTY, InTurn(p, q, f), distance) == Answers([], InTurn(p, q, f), distance) <==>
              FreshColour(f, [p], distance) == FreshColour(f, [q], distance)
    {
      InTurnAnswers(p, q, f, distance);
    }
    if LooksLike(p, q) {
      forall f
        ensures FreshColour(f, [p], distance) == FreshColour(f, [q], distance)
      {
        ExchangedColour(f, p, q, distance);
        ExchangedColour(f.(rgba := VISITED), p, q, distance);
      }
    } else {
      WhiteOnWhite(p, distance);
      WhiteOnWhite(q, distance);
      var f := Value("", 0.0, true, WHITE);
      assert FreshColour(f, [p], distance) != FreshColour(f, [q], distance);
    }
  }

  /** A body below an inner element, left again, and a colour asked for in that
      element and in its parent. */
  function Deeper(a: PaintLayer, r: PaintLayer, b: PaintLayer, f: Value): seq<Event> {
    [Enter(a, false), Enter(r, false), Enter(b, true), Leave, Query(f), Leave, Query(f)]
  }

  lemma {:induction false} DeeperAnswers(a: PaintLayer, r: PaintLayer, b: PaintLayer, f: Value, distance: Distance)
    requires a.ColourNeutral() && Inherits(a, r)
    ensures var painted := Propagated([a, r, b])[..2];
            && Remembered(EMPTY, Deeper(a, r, b, f), distance) ==
                [FreshColour(f, painted, distance), FreshColour(f, painted, distance)]
            && Answers([], Deeper(a, r, b, f), distance) ==
                [FreshColour(f, painted, distance), FreshColour(f, [a], distance)]
  {
    var s := DeeperPrefix(a, r, b, f, distance);
    assert Deeper(a, r, b, f)[4..] == [Query(f), Leave, Query(f)];
    AskedTwice(s, f, distance);
  }

  /** A colour asked for, and again after leaving an unflagged inner layer. */
  lemma {:induction false} AskedTwice(s: Stack, f: Value, distance: Distance)
    requires |s.layers| == 2 && s.changes == [false, false] && !s.memo.valid
    ensures Remembered(s, [Query(f), Leave, Query(f)], distance) ==
            [FreshColour(f, s.layers, distance), FreshColour(f, s.layers, distance)]
    ensures Answers(s.layers, [Query(f), Leave, Query(f)], distance) ==
            [FreshColour(f, s.layers, distance), FreshColour(f, s.layers[..1], distance)]
  {
    var (t, result) := Answered(s, f, distance);
    var u := Departed(t);
    assert u.layers == s.layers[..1] && Hit(u, f);
    assert [Query(f), Leave, Query(f)][1..] == [Leave, Query(f)] && [Leave, Query(f)][1..] == [Query(f)];
    assert Remembered(u, [Query(f)], distance) == [result] + Remembered(u, [], distance);
    assert Remembered(t, [Leave, Query(f)], distance) == Remembered(u, [Query(f)], distance);
    assert Answers(u.layers, [Query(f)], distance) ==
           [FreshColour(f, u.layers, distance)] + Answers(u.layers, [], distance);
    assert Answers(s.layers, [Leave, Query(f)], distance) == Answers(u.layers, [Query(f)], distance);
  }

  lemma {:induction false} DeeperPrefix(a: PaintLayer, r: PaintLayer, b: PaintLayer, f: Value, distance: Distance)
    returns (s: Stack)
    requires a.ColourNeutral() && Inherits(a, r)
    ensures s.layers == Propagated([a, r, b])[..2] && s.layers[..1] == [a] && s.changes == [false, false] &&
            !s.memo.valid
    ensures Remembered(EMPTY, Deeper(a, r, b, f), distance) == Remembered(s, Deeper(a, r, b, f)[4..], distance)
    ensures Answers([], Deeper(a, r, b, f), distance) == Answers(s.layers, Deeper(a, r, b, f)[4..], distance)
  {
    var s1 := Entered(EMPTY, a, false);
    var s2 := Entered(s1, r, false);
    var s3 := Entered(s2, b, true);
    DeeperStacks(a, r, b);
    var rest := [Query(f), Leave, Query(f)];
    assert Deeper(a, r, b, f) == [Enter(a, false)] + ([Enter(r, false)] + ([Enter(b, true)] + ([Leave] + rest)));
    Silent(EMPTY, Enter(a, false), [Enter(r, false)] + ([Enter(b, true)] + ([Leave] + rest)), distance);
    Silent(s1, Enter(r, false), [Enter(b, true)] + ([Leave] + rest), distance);
    Silent(s2, Enter(b, true), [Leave] + rest, distance);
    Silent(s3, Leave, rest, distance);
    s := Departed(s3);
    assert Deeper(a, r, b, f)[4..] == rest;
  }

  lemma {:induction false} DeeperStacks(a: PaintLayer, r: PaintLayer, b: PaintLayer)
    requires a.ColourNeutral() && Inherits(a, r)
    ensures var s := Entered(EMPTY, a, false); s.layers == [a] && s.changes == [false]
    ensures var s := Entered(Entered(EMPTY, a, false), r, false); s.layers == [a, r] && s.changes == [false, false]
    ensures var s := Entered(Entered(Entered(EMPTY, a, false), r, false), b, true);
            s.layers == Propagated([a, r, b]) && s.changes == [false, false, true] && !s.memo.valid && s.layers[0] == a
  {
    assert [] + [a] == [a] && [a] + [r] == [a, r] && [a, r] + [b] == [a, r, b];
  }

  /** An event that asks for nothing. */
  lemma {:induction false} Silent(s: Stack, e: Event, rest: seq<Event>, distance: Distance)
    requires |s.changes| == |s.layers| && Follows(s.layers, e) && !e.Query?
    requires var t := After(s, e, distance).0; |t.changes| == |t.layers|
    ensures var t := After(s, e, distance).0;
            && Remembered(s, [e] + rest, distance) == Remembered(t, rest, distance)
            && Answers(s.layers, [e] + rest, distance) == Answers(t.layers, rest, distance)
  {
    assert ([e] + rest)[1..] == rest;
    assert After(s, e, distance).0.layers == LayersAfter(s.layers, e);
  }

  const BLACK := RGBA(0.0, 0.0, 0.0, 1.0)
  const NEUTRAL := PaintLayer(CLEAR, true, true, 1.0, true, true, true, true, true, false)

  /** A body that paints an opaque background below an inner element is answered
      afresh, whatever colour is asked for, exactly when that background is white,
      as the canvas is. */
  lemma {:induction false} DeeperBody(a: PaintLayer, r: PaintLayer, b: PaintLayer, distance: Distance)
    requires a.ColourNeutral() && Inherits(a, r) && a.glyphKnown && a.shadowKnown && !r.displayNone && !b.displayNone
    requires b.backgroundKnown && b.imageKnown && b.background.a == 1.0
    ensures (forall f ::
               Remembered(EMPTY, Deeper(a, r, b, f), distance) == Answers([], Deeper(a, r, b, f), distance)) <==>
            b.background == WHITE
  {
    var painted := r.(background := b.background);
    assert Propagated([a, r, b])[..2] == [a, painted];
    forall f
      ensures Remembered(EMPTY, Deeper(a, r, b, f), distance) == Answers([], Deeper(a, r, b, f), distance) <==>
              FreshColour(f, [a, painted], distance) == FreshColour(f, [a], distance)
    {
      DeeperAnswers(a, r, b, f, distance);
    }
    if b.background == WHITE {
      forall f
        ensures FreshColour(f, [a, painted], distance) == FreshColour(f, [a], distance)
      {
        OnWhite(f, a, painted, distance);
        OnWhite(f.(rgba := VISITED), a, painted, distance);
      }
    } else {
      var f := Value("", 0.0, true, WHITE);
      WhiteOn(a, painted, distance);
      WhiteOnWhite(a, distance);
      assert FreshColour(f, [a, painted], distance) != FreshColour(f, [a], distance);
    }
  }

  /** So a body below an inner element can make a later answer stale. */
  lemma {:induction false} DeeperBodyIsStale(distance: Distance)
    ensures exists f ::
              Remembered(EMPTY, Deeper(NEUTRAL, NEUTRAL, NEUTRAL.(background := BLACK), f), distance) !=
              Answers([], Deeper(NEUTRAL, NEUTRAL, NEUTRAL.(background := BLACK), f), distance)
  {
    DeeperBody(NEUTRAL, NEUTRAL, NEUTRAL.(background := BLACK), distance);
  }

  lemma {:induction false} TwoLayers(x: Pixel, p: PaintLayer, q: PaintLayer)
    ensures ThroughAll(x, [p, q]) == Through(Through(x, q), p)
  {
    assert [p, q][..1] == [p];
    OneLayer(Through(x, q), p);
  }

  /** A layer that is neutral but for an opaque background. */
  predicate Opaque(q: PaintLayer) {
    q.background.a == 1.0 && q.(background := CLEAR).ColourNeutral() && q.glyphKnown && q.shadowKnown
  }

  lemma {:induction false} WhiteOn(p: PaintLayer, q: PaintLayer, distance: Distance)
    requires p.ColourNeutral() && Opaque(q)
    ensures FreshColour(Value("", 0.0, true, WHITE), [p, q], distance) ==
            Resolved(WHITE, q.background, distance(WHITE, q.background))
  {
    var x := Pixel(WHITE, CLEAR, false, false);
    TwoLayers(x, p, q);
    NothingOver(CLEAR, q.background);
    OpaqueOver(WHITE, WHITE);
    OpaqueOver(q.background, WHITE);
  }

  lemma {:induction false} OverClear(ink: RGBA, d: RGBA)
    requires d.a == 0.0
    ensures Over(ink, d) == if ink.a == 0.0 then CLEAR else ink
  {
    if ink.a != 0.0 {
      Divided(ink.r, ink.a);
      Divided(ink.g, ink.a);
      Divided(ink.b, ink.a);
      assert d.r * d.a * (1.0 - ink.a) == 0.0 && d.g * d.a * (1.0 - ink.a) == 0.0 && d.b * d.a * (1.0 - ink.a) == 0.0;
    }
  }

  lemma {:induction false} Divided(x: real, a: real)
    requires a != 0.0
    ensures x * a / a == x
  {
  }

  /** The ink that reaches the canvas through one neutral layer. */
  lemma {:induction false} InkThrough(ink: RGBA, p: PaintLayer)
    requires p.ColourNeutral()
    ensures Over(Blend(ink, p), WHITE) == Over(ink, WHITE)
  {
    OverClear(ink, p.background);
    if ink.a == 0.0 {
      NothingOver(ink, WHITE);
      NothingOver(CLEAR, WHITE);
    }
  }

  /** The ink that reaches the canvas through a white layer and a neutral one. */
  lemma {:induction false} InkThroughWhite(ink: RGBA, p: PaintLayer, q: PaintLayer)
    requires p.ColourNeutral() && Opaque(q) && q.background == WHITE
    ensures Over(Blend(Blend(ink, q), p), WHITE) == Over(ink, WHITE)
  {
    var c := Over(ink, WHITE);
    assert c.a == 1.0;
    OpaqueOver(c, WHITE);
  }

  lemma {:induction false} OnWhite(f: Value, p: PaintLayer, q: PaintLayer, distance: Distance)
    requires p.ColourNeutral() && p.glyphKnown && p.shadowKnown && Opaque(q) && q.background == WHITE
    ensures ColourOf(f, [p, q], distance) == ColourOf(f, [p], distance)
  {
    if f.known {
      var x := Pixel(f.rgba, CLEAR, false, false);
      TwoLayers(x, p, q);
      OneLayer(x, p);
      NeutralBlends(p);
      NothingOver(CLEAR, WHITE);
      OnCanvas();
      InkThrough(f.rgba, p);
      InkThroughWhite(f.rgba, p, q);
    } else {
      LostStays("unresolved foreground", [p, q]);
      LostStays("unresolved foreground", [p]);
    }
  }

  class PaintStack {
    const distance: Distance
    var layers: seq<PaintLayer>
    var changes: seq<bool>
    var generation: nat
    var memo: Memo
    ghost var left: seq<PaintLayer>

    ghost function Now(): Stack
      reads this
    {
      Stack(layers, changes, generation, memo, left)
    }

    constructor (distance: Distance)
      ensures Now() == EMPTY && this.distance == distance
    {
      this.distance := distance;
      layers, changes, generation, memo, left := [], [], 0, NO_MEMO, [];
    }

    /** The start of a viewing case. */
    method Begin()
      modifies this
      ensures Now() == EMPTY.(memo := old(memo).(valid := false)) && Sound(Now(), distance)
    {
      layers, changes, generation, left := [], [], 0, [];
      memo := memo.(valid := false);
      assert SoundFor(Now(), distance);
    }

    /** The remembered answer or a fresh one; with a sound memo there is no
        difference. */
    method EvaluateColour(foreground: Value) returns (result: ColourResult)
      modifies this`memo
      ensures (Now(), result) == Answered(old(Now()), foreground, distance)
      ensures Sound(old(Now()), distance) && layers != [] ==>
                Sound(Now(), distance) && result == FreshColour(foreground, layers, distance)
    {
      if Sound(Now(), distance) && layers != [] {
        AnsweredSound(Now(), foreground, distance);
      }
      if memo.valid && memo.generation == generation && memo.foreground == foreground {
        return memo.result;
      }
      result := PaintColours.EvaluateColour(foreground, layers, distance);
      if foreground.text == LINK_DEFAULT && result.Resolved? {
        var alternate := PaintColours.EvaluateColour(foreground.(rgba := VISITED), layers, distance);
        if !alternate.Resolved? || Concealed(result.distance) != Concealed(alternate.distance) {
          result := Uncertain("visited link colour");
        }
      }
      memo := Memo(foreground, result, generation, true);
    }

    method EnterPaintLayer(paint: PaintLayer, body: bool)
      modifies this
      ensures Now() == Entered(old(Now()), paint, body)
      ensures Sound(old(Now()), distance) && Harmless(old(Now()), Enter(paint, body)) ==> Sound(Now(), distance)
    {
      if Sound(Now(), distance) && Harmless(Now(), Enter(paint, body)) {
        EnteredSound(Now(), paint, body, distance);
      }
      layers := layers + [paint];
      var changed := !paint.ColourNeutral();
      if |layers| > 1 {
        var parent := layers[|layers| - 2];
        changed := changed || parent.glyphKnown != paint.glyphKnown || parent.shadowKnown != paint.shadowKnown;
      }
      if body {
        layers := Propagated(layers);
        changed := true;
      }
      changes := changes + [changed];
      if changed {
        generation := generation + 1;
      }
    }

    method LeavePaintLayer()
      requires layers != [] && |changes| == |layers|
      modifies this
      ensures Now() == Departed(old(Now()))
      ensures Sound(old(Now()), distance) ==> Sound(Now(), distance)
    {
      if Sound(Now(), distance) {
        DepartedSound(Now(), distance);
      }
      var changed := changes[|changes| - 1];
      left := if |layers| > 1 then left else if changes[0] then [] else layers;
      layers, changes := layers[..|layers| - 1], changes[..|changes| - 1];
      if changed {
        generation := generation + 1;
      }
    }

    method Step(e: Event) returns (answer: seq<ColourResult>)
      requires |changes| == |layers| && Follows(layers, e)
      modifies this
      ensures (Now(), answer) == After(old(Now()), e, distance)
    {
      answer := [];
      match e {
        case Enter(paint, body) =>
          EnterPaintLayer(paint, body);
        case Leave =>
          LeavePaintLayer();
        case Query(foreground) =>
          var result := EvaluateColour(foreground);
          answer := [result];
      }
    }

    /** Over any viewing case the answers are those of the memo; where everything is
        harmless they are the fresh ones. */
    method Run(events: seq<Event>) returns (answers: seq<ColourResult>)
      requires Walks([], events)
      modifies this
      ensures var start := EMPTY.(memo := old(memo).(valid := false));
              && answers == Remembered(start, events, distance)
              && (AllHarmless(start, events, distance) ==> answers == Answers([], events, distance))
    {
      Begin();
      answers := [];
      ghost var start := Now();
      ReachedFirst(start, events, distance);
      for i := 0 to |events|
        invariant Reached(start, events, i, answers, Now(), distance)
      {
        ReachedNext(start, events, i, answers, Now(), distance);
        var answer := Step(events[i]);
        answers := answers + answer;
      }
      ReachedLast(start, events, answers, Now(), distance);
      if AllHarmless(start, events, distance) {
        RememberedIsFresh(start, events, distance);
      }
    }
  }
}
