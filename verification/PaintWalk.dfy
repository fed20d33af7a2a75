/** The colours that a walk of a document asks for. */
module PaintWalk {
  import opened Documents
  import opened PaintColours
  import opened ColourMemo

  /** How the elements of a document paint, which nodes are walked, and which
      colours are asked for at each. */
  datatype Viewing = Viewing(tree: Tree, paint: int -> PaintLayer, walked: int -> bool, asked: int -> seq<Value>)
  {
    /** One outermost element, and no other element called html. */
    ghost predicate OneOutermost() {
      && Parsed(tree) && tree != [] && !tree[0].element
      && (forall m, n :: Outermost(m) && Outermost(n) ==> m == n)
      && (forall n {:trigger IsHtml(n)} :: IsHtml(n) ==> tree[n].parent == 0)
    }

    /** Every node but the document's has a parent before it. */
    predicate Rooted() {
      forall i :: 0 < i < |tree| ==> 0 <= tree[i].parent < i
    }

    predicate Outermost(n: int) {
      IsElement(tree, n) && tree[n].parent == 0
    }

    predicate IsHtml(n: int) {
      IsElement(tree, n) && tree[n].namespace == "" && tree[n].data == "html"
    }

    /** The same, unfolded only where a proof names `OneOutermost`. */
    ghost predicate Single() {
      forall v: Viewing {:trigger v.OneOutermost()} :: v == this ==> v.OneOutermost()
    }

    /** Whether the node is a body that shares its background with its parent. */
    predicate IsBody(n: nat)
      requires n < |tree| && 0 <= tree[n].parent < |tree|
    {
      tree[n].namespace == "" && tree[n].data == "body" && IsHtml(tree[n].parent)
    }

    /** How many elements are open around a node. */
    function Depth(n: nat): nat
      requires Rooted() && 0 < n < |tree|
      decreases n
    {
      if tree[n].parent == 0 then 0 else 1 + Depth(tree[n].parent)
    }

    function Asks(colours: seq<Value>): (events: seq<Event>)
      ensures |events| == |colours| && forall i :: 0 <= i < |colours| ==> events[i] == Query(colours[i])
    {
      seq(|colours|, i requires 0 <= i < |colours| => Query(colours[i]))
    }

    /** What a node and everything below it does to the paint layers. Nothing is
        asked for outside elements. */
    function NodeEvents(n: nat): seq<Event>
      requires Rooted() && 0 < n < |tree|
      decreases |tree| - n, 0
    {
      if !walked(n) then []
      else if !tree[n].element then if tree[n].parent == 0 then [] else Asks(asked(n))
      else [Enter(paint(n), IsBody(n))] + (Asks(asked(n)) + (ChildEvents(n, n + 1) + [Leave]))
    }

    /** The children of `n` from index `c` on, in order. */
    function ChildEvents(n: nat, c: nat): seq<Event>
      requires Rooted() && n < c
      decreases if c <= |tree| then |tree| - c else 0, 1
    {
      if c >= |tree| then []
      else if tree[c].parent == n then NodeEvents(c) + ChildEvents(n, c + 1)
      else ChildEvents(n, c + 1)
    }

    lemma {:induction false} Asked(d: nat, colours: seq<Value>, rest: seq<Event>)
      requires d > 0 && OneRootAt(d, rest, false)
      ensures OneRootAt(d, Asks(colours) + rest, false)
      decreases |colours|
    {
      var events := Asks(colours) + rest;
      if colours == [] {
        assert events == rest;
      } else {
        Asked(d, colours[1..], rest);
        assert events[1..] == Asks(colours[1..]) + rest;
      }
    }

    lemma {:induction false} NodeFits(n: nat, rest: seq<Event>, first: bool)
      requires Rooted() && Single() && 0 < n < |tree| && OneRootAt(Depth(n), rest, false) && (Depth(n) == 0 ==> first)
      ensures OneRootAt(Depth(n), NodeEvents(n) + rest, first)
      decreases |tree| - n, 2
    {
      var d := Depth(n);
      if walked(n) && tree[n].element {
        ElementFits(n, rest, first);
      } else if walked(n) && tree[n].parent != 0 {
        Asked(d, asked(n), rest);
        Earlier(d, NodeEvents(n) + rest);
      } else {
        assert NodeEvents(n) + rest == rest;
        Earlier(d, rest);
      }
    }

    lemma {:induction false} ElementFits(n: nat, rest: seq<Event>, first: bool)
      requires Rooted() && Single() && 0 < n < |tree| && OneRootAt(Depth(n), rest, false) && (Depth(n) == 0 ==> first)
      requires walked(n) && tree[n].element
      ensures OneRootAt(Depth(n), NodeEvents(n) + rest, first)
      decreases |tree| - n, 1
    {
      LeaveFits(Depth(n), rest);
      ChildrenFit(n, n + 1, [Leave] + rest);
      Asked(Depth(n) + 1, asked(n), ChildEvents(n, n + 1) + ([Leave] + rest));
      if IsBody(n) {
        BodyDepth(n);
      }
      EnterFits(Depth(n), paint(n), IsBody(n), Asks(asked(n)), ChildEvents(n, n + 1), rest, first);
    }

    lemma {:induction false} BodyDepth(n: nat)
      requires Rooted() && Single() && 0 < n < |tree| && IsBody(n)
      ensures Depth(n) == 1
    {
      assert this.OneOutermost() && IsHtml(tree[n].parent) && tree[n].parent > 0;
    }

    lemma {:induction false} ChildrenFit(n: nat, c: nat, rest: seq<Event>)
      requires Rooted() && Single() && 0 < n < |tree| && n < c && OneRootAt(Depth(n) + 1, rest, false)
      ensures OneRootAt(Depth(n) + 1, ChildEvents(n, c) + rest, false)
      decreases if c <= |tree| then |tree| - c else 0, 3
    {
      if c >= |tree| {
        assert ChildEvents(n, c) + rest == rest;
      } else {
        ChildrenFit(n, c + 1, rest);
        if tree[c].parent == n {
          NodeFits(c, ChildEvents(n, c + 1) + rest, false);
          assert NodeEvents(c) + ChildEvents(n, c + 1) + rest == NodeEvents(c) + (ChildEvents(n, c + 1) + rest);
        }
      }
    }

    /** After the outermost element nothing is left to walk. */
    lemma {:induction false} NoneAfter(n: nat, c: nat)
      requires Rooted() && Single() && Outermost(n) && 0 < n < c
      ensures ChildEvents(0, c) == []
      decreases if c <= |tree| then |tree| - c else 0
    {
      if c < |tree| {
        NoneAfter(n, c + 1);
        NotSecond(n, c);
      }
    }

    lemma {:induction false} NotSecond(n: nat, c: nat)
      requires Single() && Outermost(n) && n < c
      ensures !Outermost(c)
    {
      assert this.OneOutermost();
    }

    lemma {:induction false} TopFits(c: nat)
      requires Rooted() && Single() && 0 < c
      ensures OneRootAt(0, ChildEvents(0, c), true)
      decreases if c <= |tree| then |tree| - c else 0
    {
      if c < |tree| {
        TopFits(c + 1);
        if tree[c].parent == 0 && tree[c].element {
          NoneAfter(c, c + 1);
          NodeFits(c, [], true);
          assert NodeEvents(c) + [] == NodeEvents(c);
        } else if tree[c].parent == 0 {
          assert NodeEvents(c) + ChildEvents(0, c + 1) == ChildEvents(0, c + 1);
        }
      }
    }

    /** In a document with one outermost element the memo answers every colour, at
        every node, as a fresh evaluation would. */
    lemma {:induction false} DocumentIsFresh(distance: Distance)
      requires OneOutermost()
      ensures var events := ChildEvents(0, 1);
              Walks([], events) && Remembered(EMPTY, events, distance) == Answers([], events, distance)
    {
      assert forall v: Viewing :: v == this ==> v.OneOutermost();
      TopFits(1);
      OneRootFits([], ChildEvents(0, 1), true);
      OneRootIsHarmless(EMPTY, ChildEvents(0, 1), true, distance);
      assert SoundFor(EMPTY, distance);
      RememberedIsFresh(EMPTY, ChildEvents(0, 1), distance);
      OneRootWalks([], ChildEvents(0, 1), true);
    }
  }

  /** The one-root condition over how many elements are open. */
  predicate OneRootAt(d: nat, events: seq<Event>, first: bool)
    decreases events
  {
    events == [] ||
    ((events[0].Enter? || d > 0) &&
     (events[0].Enter? ==> (d == 0 ==> first) && (events[0].body ==> d == 1)) &&
     OneRootAt(DepthAfter(d, events[0]), events[1..], false))
  }

  function DepthAfter(d: nat, e: Event): nat {
    match e
    case Enter(_, _) => d + 1
    case Leave => if d == 0 then 0 else d - 1
    case Query(_) => d
  }

  lemma {:induction false} Earlier(d: nat, events: seq<Event>)
    requires OneRootAt(d, events, false)
    ensures OneRootAt(d, events, true)
  {
  }

  lemma {:induction false} LeaveFits(d: nat, rest: seq<Event>)
    requires OneRootAt(d, rest, false)
    ensures OneRootAt(d + 1, [Leave] + rest, false)
  {
    assert ([Leave] + rest)[1..] == rest;
  }

  lemma {:induction false} EnterFits(d: nat, p: PaintLayer, body: bool, own: seq<Event>, inner: seq<Event>,
                                     rest: seq<Event>, first: bool)
    requires (d == 0 ==> first) && (body ==> d == 1) && OneRootAt(d + 1, own + (inner + ([Leave] + rest)), false)
    ensures OneRootAt(d, [Enter(p, body)] + (own + (inner + [Leave])) + rest, first)
  {
    var events := [Enter(p, body)] + (own + (inner + [Leave])) + rest;
    assert events[0] == Enter(p, body) && events[1..] == own + (inner + ([Leave] + rest));
  }

  lemma {:induction false} OneRootFits(layers: seq<PaintLayer>, events: seq<Event>, first: bool)
    requires OneRootAt(|layers|, events, first)
    ensures OneRoot(layers, events, first)
    decreases events
  {
    if events != [] {
      assert |LayersAfter(layers, events[0])| == DepthAfter(|layers|, events[0]);
      OneRootFits(LayersAfter(layers, events[0]), events[1..], false);
    }
  }

  lemma {:induction false} OneRootWalks(layers: seq<PaintLayer>, events: seq<Event>, first: bool)
    requires OneRoot(layers, events, first)
    ensures Walks(layers, events)
    decreases events
  {
    if events != [] {
      OneRootWalks(LayersAfter(layers, events[0]), events[1..], false);
    }
  }
}
