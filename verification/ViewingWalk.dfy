/** The depth-first walk that evaluates every element of a viewing case. */
module ViewingWalk {
  import opened Documents
  import opened SelectorKeys
  import opened ActiveAncestors
  import opened Cascade
  import opened Media
  import opened Stylesheets
  import opened SelectorIndex
  import opened Gathering
  import opened Candidates
  import opened SheetCaches
  import opened PathActivation

  datatype Scope = ActiveScope | HeadScope | InertScope

  function NodeContentScope(n: Node, parent: Scope): Scope {
    if !n.element then parent
    else if n.data == "template" || n.data == "iframe" || n.data == "noembed" || n.data == "noframes" then InertScope
    else if parent != ActiveScope then parent
    else if n.data == "head" then HeadScope
    else if n.data == "style" || n.data == "script" || n.data == "title" then InertScope
    else ActiveScope
  }

  /** The content scope of a node, from the root down. */
  function ScopeOf(t: Tree, n: int): Scope
    requires WellFormed(t) && -1 <= n < |t|
    decreases n
  {
    if n < 0 then ActiveScope else NodeContentScope(t[n], ScopeOf(t, t[n].parent))
  }

  /** Inert content stays inert. */
  lemma {:induction false} InertInherits(t: Tree, n: int)
    requires WellFormed(t) && 0 <= n < |t| && ScopeOf(t, t[n].parent) == InertScope
    ensures ScopeOf(t, n) == InertScope
  {
  }

  predicate IsChild(t: Tree, c: int, p: int) {
    0 <= c < |t| && t[c].parent == p
  }

  /** The first child of `p` at or after index `i`, or -1. */
  function ChildFrom(t: Tree, p: int, i: nat): (c: int)
    requires i <= |t|
    ensures c == -1 || (i <= c && IsChild(t, c, p))
    ensures forall k :: IsChild(t, k, p) && i <= k && (c == -1 || k < c) ==> false
    decreases |t| - i
  {
    if i == |t| then -1 else if t[i].parent == p then i else ChildFrom(t, p, i + 1)
  }

  function FirstChild(t: Tree, n: int): int
    requires 0 <= n < |t|
  {
    ChildFrom(t, n, n + 1)
  }

  function NextSibling(t: Tree, n: int): int
    requires 0 <= n < |t|
  {
    ChildFrom(t, t[n].parent, n + 1)
  }

  datatype Frame = Frame(n: int, next: int, entered: bool, scope: Scope, activation: Activation)

  /** The frames are a path from the root; all but the last have been entered. */
  ghost predicate PathOk(t: Tree, frames: seq<Frame>)
    requires WellFormed(t)
  {
    && (forall i :: 0 <= i < |frames| ==> 0 <= frames[i].n < |t|)
    && (frames != [] ==> frames[0].n == 0)
    && (forall i :: 0 <= i < |frames| - 1 ==> frames[i].entered && t[frames[i + 1].n].parent == frames[i].n)
    && (forall i :: 0 <= i < |frames| ==>
          && frames[i].scope == ScopeOf(t, if frames[i].entered then frames[i].n else t[frames[i].n].parent)
          && (frames[i].entered ==> frames[i].scope != InertScope)
          && (frames[i].entered ==> frames[i].next == -1 || IsChild(t, frames[i].next, frames[i].n)))
  }

  /** An entered element with element children has its keys activated, and no
      other frame holds an activation. */
  ghost predicate FrameActivated(t: Tree, index: Index, f: Frame) {
    if f.entered && IsElement(t, f.n) && HasElementChild(t, f.n)
    then Activates(index, t, f.n, f.activation)
    else f.activation == INACTIVE
  }

  ghost predicate ActivationsOk(t: Tree, index: Index, frames: seq<Frame>) {
    forall i :: 0 <= i < |frames| ==> FrameActivated(t, index, frames[i])
  }

  /** The contributors on the path. */
  ghost function PathIds(frames: seq<Frame>): multiset<nat> {
    if frames == [] then multiset{}
    else PathIds(frames[..|frames| - 1]) + Ids(frames[|frames| - 1].activation.Buckets())
  }

  lemma {:induction false} InactiveIds()
    ensures Ids(INACTIVE.Buckets()) == multiset{}
  {
    assert INACTIVE.Buckets()[1..] == [];
  }

  lemma {:induction false} PrefixOk(t: Tree, index: Index, frames: seq<Frame>)
    requires Parsed(t) && PathOk(t, frames) && ActivationsOk(t, index, frames) && |frames| > 1
    ensures PathOk(t, frames[..|frames| - 1]) && ActivationsOk(t, index, frames[..|frames| - 1])
  {
    var below := frames[..|frames| - 1];
    assert forall i :: 0 <= i < |below| ==> below[i] == frames[i];
  }

  /** The activations below an element are exactly its ancestors' keys. */
  lemma {:induction false} PathKeyed(t: Tree, index: Index, frames: seq<Frame>)
    requires Parsed(t) && PathOk(t, frames) && ActivationsOk(t, index, frames) && frames != []
    requires |frames| == 1 || IsElement(t, frames[|frames| - 1].n)
    ensures Keyed(index, PathKeys(t, frames[|frames| - 1].n), PathIds(frames[..|frames| - 1]))
  {
    var last := |frames| - 1;
    if last > 0 {
      var below, p := frames[..last], frames[last - 1];
      assert below[..last - 1] == frames[..last - 1] && below[last - 1] == p;
      StepParent(t, frames);
      assert FrameActivated(t, index, frames[last - 1]);
      if IsElement(t, p.n) {
        PrefixOk(t, index, frames);
        PathKeyed(t, index, below);
        KeyedUnion(index, SuppliedKeys(t, p.n), PathKeys(t, p.n), Ids(p.activation.Buckets()),
                   PathIds(below[..last - 1]));
      } else {
        RootIds(t, index, below);
      }
    }
  }

  /** The document itself contributes nothing. */
  lemma {:induction false} RootIds(t: Tree, index: Index, below: seq<Frame>)
    requires |below| == 1 && FrameActivated(t, index, below[0]) && !IsElement(t, below[0].n)
    ensures PathIds(below) == multiset{}
  {
    assert below[..0] == [] && below[0].activation == INACTIVE;
    InactiveIds();
  }

  /** Below the top of a path to an element is its parent, entered. */
  lemma {:induction false} StepParent(t: Tree, frames: seq<Frame>)
    requires Parsed(t) && PathOk(t, frames) && |frames| > 1 && IsElement(t, frames[|frames| - 1].n)
    ensures var n, p := frames[|frames| - 1].n, frames[|frames| - 2];
            && p.entered && HasElementChild(t, p.n)
            && (IsElement(t, p.n) ==> ElementParent(t, n) == p.n)
            && (!IsElement(t, p.n) ==> ElementParent(t, n) == -1 && |frames| == 2)
  {
    var n, p := frames[|frames| - 1].n, frames[|frames| - 2].n;
    assert t[frames[|frames| - 2 + 1].n].parent == p;
    assert t[n].parent == p && t[n].element;
    if !IsElement(t, p) {
      OnlyRootIsZero(t, frames, |frames| - 2);
    }
  }

  lemma {:induction false} OnlyRootIsZero(t: Tree, frames: seq<Frame>, i: nat)
    requires WellFormed(t) && PathOk(t, frames) && i < |frames| && frames[i].n == 0
    ensures i == 0
  {
    if i > 0 {
      ParentBelow(t, frames, i - 1);
    }
  }

  lemma {:induction false} ParentBelow(t: Tree, frames: seq<Frame>, i: nat)
    requires WellFormed(t) && PathOk(t, frames) && i + 1 < |frames|
    ensures frames[i].n < frames[i + 1].n
  {
  }

  lemma {:induction false} KeyedUnion(index: Index, ks: set<Key>, ls: set<Key>, m: multiset<nat>, n: multiset<nat>)
    requires Keyed(index, ks, m) && Keyed(index, ls, n)
    ensures Keyed(index, ks + ls, n + m)
  {
    forall s: nat
      ensures s in n + m <==> exists k :: k in ks + ls && index.Lookup(k) != [] && Identity(index.Lookup(k)) == s
    {
      if k :| k in ks + ls && index.Lookup(k) != [] && Identity(index.Lookup(k)) == s {
        assert k in ks || k in ls;
      }
      if s in m {
        var k :| k in ks && index.Lookup(k) != [] && Identity(index.Lookup(k)) == s;
        assert k in ks + ls;
      }
      if s in n {
        var k :| k in ls && index.Lookup(k) != [] && Identity(index.Lookup(k)) == s;
        assert k in ks + ls;
      }
    }
  }

  predicate OnStack(frames: seq<Frame>, n: int) {
    exists i :: 0 <= i < |frames| && frames[i].n == n
  }

  /** What is left to push: for a frame its children from `next` on, and with a
      node everything below it. */
  ghost predicate LeftOk(t: Tree, frames: seq<Frame>, left: set<int>) {
    && 0 !in left
    && (forall p, c :: p in left && IsChild(t, c, p) ==> c in left)
    && (forall i :: 0 <= i < |frames| ==> frames[i].n !in left)
    && (forall i, c :: 0 <= i < |frames| && IsChild(t, c, frames[i].n) ==>
          (c in left <==> !frames[i].entered || (frames[i].next != -1 && frames[i].next <= c)))
  }

  /** A finished node outside inert content has no children left. */
  ghost predicate FinishedOk(t: Tree, frames: seq<Frame>, left: set<int>)
    requires WellFormed(t)
  {
    forall p, c ::
        (0 <= p < |t| && IsChild(t, c, p) && p !in left && !OnStack(frames, p) && ScopeOf(t, p) != InertScope) ==>
        c !in left
  }

  predicate Waiting(frames: seq<Frame>, n: int) {
    frames != [] && !frames[|frames| - 1].entered && frames[|frames| - 1].n == n
  }

  /** Elements that have been evaluated: pushed, not inert, and not still waiting. */
  ghost predicate EvaluatedOk(t: Tree, frames: seq<Frame>, left: set<int>, evaluated: set<int>)
    requires WellFormed(t)
  {
    forall n :: n in evaluated <==>
      IsElement(t, n) && n !in left && ScopeOf(t, n) != InertScope && !Waiting(frames, n)
  }

  ghost predicate WalkOk(t: Tree, frames: seq<Frame>, left: set<int>, evaluated: set<int>)
    requires WellFormed(t)
  {
    PathOk(t, frames) && LeftOk(t, frames, left) && FinishedOk(t, frames, left) &&
        EvaluatedOk(t, frames, left, evaluated)
  }

  /** Every node but the root. */
  ghost function Others(t: Tree): (left: set<int>)
    requires Parsed(t)
    ensures forall n :: n in left <==> 0 < n < |t|
  {
    set n | 0 <= n < |t| && t[n].parent >= 0 && n != 0
  }

  lemma {:induction false} WalkStarts(t: Tree)
    requires Parsed(t) && t != []
    ensures WalkOk(t, [Frame(0, -1, false, ActiveScope, INACTIVE)], Others(t), {})
    ensures PathIds([Frame(0, -1, false, ActiveScope, INACTIVE)]) == multiset{}
  {
    var frames := [Frame(0, -1, false, ActiveScope, INACTIVE)];
    assert frames[..0] == [];
    InactiveIds();
    assert frames[0].n == 0;
  }

  /** Popping a frame that was skipped as inert, or whose children are all done. */
  lemma {:induction false} PopOk(t: Tree, frames: seq<Frame>, left: set<int>, evaluated: set<int>)
    requires WellFormed(t) && frames != [] && WalkOk(t, frames, left, evaluated)
    requires var f := frames[|frames| - 1];
             if f.entered then f.next == -1 else NodeContentScope(t[f.n], f.scope) == InertScope
    ensures WalkOk(t, frames[..|frames| - 1], left, evaluated)
  {
    var top, rest := |frames| - 1, frames[..|frames| - 1];
    PopFinished(t, frames, left);
    assert LeftOk(t, rest, left);
    assert EvaluatedOk(t, rest, left, evaluated) by {
      assert rest != [] ==> rest[top - 1].entered;
    }
  }

  lemma {:induction false} PopFinished(t: Tree, frames: seq<Frame>, left: set<int>)
    requires WellFormed(t) && frames != [] && PathOk(t, frames) && LeftOk(t, frames, left) &&
             FinishedOk(t, frames, left)
    requires var f := frames[|frames| - 1];
             if f.entered then f.next == -1 else NodeContentScope(t[f.n], f.scope) == InertScope
    ensures FinishedOk(t, frames[..|frames| - 1], left)
  {
    var top, rest := |frames| - 1, frames[..|frames| - 1];
    forall p, c | 0 <= p < |t| && IsChild(t, c, p) && p !in left && !OnStack(rest, p) && ScopeOf(t, p) != InertScope
      ensures c !in left
    {
      if p == frames[top].n {
        assert IsChild(t, c, frames[top].n);
      } else {
        StackOfPrefix(frames, p);
      }
    }
  }

  lemma {:induction false} StackOfPrefix(frames: seq<Frame>, p: int)
    requires frames != [] && p != frames[|frames| - 1].n && !OnStack(frames[..|frames| - 1], p)
    ensures !OnStack(frames, p)
  {
    assert forall i :: 0 <= i < |frames| - 1 ==> frames[..|frames| - 1][i].n == frames[i].n;
  }

  /** Two stacks over the same nodes. */
  predicate SameNodes(xs: seq<Frame>, ys: seq<Frame>) {
    |xs| == |ys| && forall i :: 0 <= i < |xs| ==> xs[i].n == ys[i].n
  }

  lemma {:induction false} SameNodesFinished(t: Tree, xs: seq<Frame>, ys: seq<Frame>, left: set<int>)
    requires WellFormed(t) && SameNodes(xs, ys) && FinishedOk(t, xs, left)
    ensures FinishedOk(t, ys, left)
  {
    forall p
      ensures OnStack(xs, p) ==> OnStack(ys, p)
    {
      if i :| 0 <= i < |xs| && xs[i].n == p {
        assert ys[i].n == p;
      }
    }
  }

  ghost function EnteredFrame(t: Tree, f: Frame, activation: Activation): Frame
    requires 0 <= f.n < |t|
  {
    Frame(f.n, FirstChild(t, f.n), true, NodeContentScope(t[f.n], f.scope), activation)
  }

  lemma {:induction false} EnterOk(t: Tree, frames: seq<Frame>, left: set<int>, evaluated: set<int>,
                                   activation: Activation)
    requires WellFormed(t) && frames != [] && WalkOk(t, frames, left, evaluated)
    requires var f := frames[|frames| - 1]; !f.entered && NodeContentScope(t[f.n], f.scope) != InertScope
    ensures var f := frames[|frames| - 1];
            WalkOk(t, frames[|frames| - 1 := EnteredFrame(t, f, activation)],
                   left, if IsElement(t, f.n) then evaluated + {f.n} else evaluated)
  {
    var top := |frames| - 1;
    var f := frames[top];
    var after := frames[top := EnteredFrame(t, f, activation)];
    SameNodesFinished(t, frames, after, left);
    EnterLeft(t, frames, left, activation);
    EnterPath(t, frames, activation);
    assert EvaluatedOk(t, after, left, if IsElement(t, f.n) then evaluated + {f.n} else evaluated) by {
      assert after[top].entered;
    }
  }

  lemma {:induction false} EnterPath(t: Tree, frames: seq<Frame>, activation: Activation)
    requires WellFormed(t) && frames != [] && PathOk(t, frames)
    requires var f := frames[|frames| - 1]; !f.entered && NodeContentScope(t[f.n], f.scope) != InertScope
    ensures PathOk(t, frames[|frames| - 1 := EnteredFrame(t, frames[|frames| - 1], activation)])
  {
  }

  lemma {:induction false} EnterLeft(t: Tree, frames: seq<Frame>, left: set<int>, activation: Activation)
    requires WellFormed(t) && frames != [] && PathOk(t, frames) && LeftOk(t, frames, left) &&
             !frames[|frames| - 1].entered
    ensures LeftOk(t, frames[|frames| - 1 := EnteredFrame(t, frames[|frames| - 1], activation)], left)
  {
    var top := |frames| - 1;
    var after := frames[top := EnteredFrame(t, frames[top], activation)];
    forall i, c | 0 <= i < |after| && IsChild(t, c, after[i].n)
      ensures c in left <==> !after[i].entered || (after[i].next != -1 && after[i].next <= c)
    {
      assert IsChild(t, c, frames[i].n);
    }
  }

  /** The stack with the next child pushed. */
  function Descended(t: Tree, frames: seq<Frame>): seq<Frame>
    requires frames != [] && 0 <= frames[|frames| - 1].next < |t|
  {
    var f := frames[|frames| - 1];
    frames[|frames| - 1 := f.(next := NextSibling(t, f.next))] + [Frame(f.next, -1, false, f.scope, INACTIVE)]
  }

  lemma {:induction false} DescendOk(t: Tree, frames: seq<Frame>, left: set<int>, evaluated: set<int>)
    requires WellFormed(t) && frames != [] && WalkOk(t, frames, left, evaluated)
    requires frames[|frames| - 1].entered && frames[|frames| - 1].next != -1
    ensures var f := frames[|frames| - 1];
            IsChild(t, f.next, f.n) && f.next in left && WalkOk(t, Descended(t, frames), left - {f.next}, evaluated)
  {
    var top, child := |frames| - 1, frames[|frames| - 1].next;
    assert IsChild(t, child, frames[top].n);
    var after := Descended(t, frames);
    DescendLeft(t, frames, left);
    DescendFinished(t, frames, left);
    DescendPath(t, frames);
    assert EvaluatedOk(t, after, left - {child}, evaluated);
  }

  lemma {:induction false} DescendPath(t: Tree, frames: seq<Frame>)
    requires WellFormed(t) && frames != [] && PathOk(t, frames)
    requires frames[|frames| - 1].entered && frames[|frames| - 1].next != -1
    ensures PathOk(t, Descended(t, frames))
  {
  }

  lemma {:induction false} DescendFinished(t: Tree, frames: seq<Frame>, left: set<int>)
    requires WellFormed(t) && frames != [] && PathOk(t, frames) && FinishedOk(t, frames, left)
    requires frames[|frames| - 1].entered && frames[|frames| - 1].next != -1
    ensures FinishedOk(t, Descended(t, frames), left - {frames[|frames| - 1].next})
  {
    var after, child := Descended(t, frames), frames[|frames| - 1].next;
    forall p, c | 0 <= p < |t| && IsChild(t, c, p) && p !in left - {child} && !OnStack(after, p) &&
        ScopeOf(t, p) != InertScope
      ensures c !in left - {child}
    {
      assert after[|frames|].n == child;
      assert forall i :: 0 <= i < |frames| ==> after[i].n == frames[i].n;
      assert !OnStack(frames, p);
    }
  }

  lemma {:induction false} DescendLeft(t: Tree, frames: seq<Frame>, left: set<int>)
    requires WellFormed(t) && frames != [] && PathOk(t, frames) && LeftOk(t, frames, left)
    requires frames[|frames| - 1].entered && frames[|frames| - 1].next != -1
    ensures LeftOk(t, Descended(t, frames), left - {frames[|frames| - 1].next})
  {
    var top := |frames| - 1;
    var after, child := Descended(t, frames), frames[top].next;
    forall i, c | 0 <= i < |after| && IsChild(t, c, after[i].n)
      ensures c in left - {child} <==> !after[i].entered || (after[i].next != -1 && after[i].next <= c)
    {
      if i <= top {
        assert after[i].n == frames[i].n && IsChild(t, c, frames[i].n);
        if i < top && c == child {
          Ascending(t, frames, i);
        }
      }
    }
  }

  /** Deeper frames have larger node indexes. */
  lemma {:induction false} Ascending(t: Tree, frames: seq<Frame>, i: nat)
    requires WellFormed(t) && PathOk(t, frames) && i < |frames| - 1
    ensures frames[i].n < frames[|frames| - 1].n
    decreases |frames| - i
  {
    assert t[frames[i + 1].n].parent == frames[i].n;
    if i + 1 < |frames| - 1 {
      Ascending(t, frames, i + 1);
    }
  }

  lemma {:induction false} DescendIds(t: Tree, frames: seq<Frame>)
    requires frames != [] && 0 <= frames[|frames| - 1].next < |t|
    ensures PathIds(Descended(t, frames)) == PathIds(frames)
  {
    var top := |frames| - 1;
    var after := Descended(t, frames);
    assert after[..top + 1][..top] == frames[..top];
    InactiveIds();
  }

  lemma {:induction false} EnteredIds(frames: seq<Frame>, f: Frame)
    requires frames != []
    ensures PathIds(frames[|frames| - 1 := f]) == PathIds(frames[..|frames| - 1]) + Ids(f.activation.Buckets())
  {
    assert frames[|frames| - 1 := f][..|frames| - 1] == frames[..|frames| - 1];
  }

  /** When the walk ends, every node outside inert content has been visited. */
  lemma {:induction false} AllVisited(t: Tree, left: set<int>, n: int)
    requires Parsed(t) && FinishedOk(t, [], left) && 0 !in left
    requires 0 <= n < |t| && ScopeOf(t, n) != InertScope
    ensures n !in left
    decreases n
  {
    if n > 0 {
      var p := t[n].parent;
      if ScopeOf(t, p) == InertScope {
        InertInherits(t, n);
      }
      AllVisited(t, left, p);
      assert IsChild(t, n, p);
    }
  }

  /** A state of the walk: the stack, what was not pushed yet and what has been
      evaluated. */
  datatype Walk = Walk(frames: seq<Frame>, left: set<int>, evaluated: set<int>)

  ghost function Start(t: Tree): Walk
    requires Parsed(t)
  {
    Walk([Frame(0, -1, false, ActiveScope, INACTIVE)], Others(t), {})
  }

  ghost function Popped(w: Walk): Walk
    requires w.frames != []
  {
    w.(frames := w.frames[..|w.frames| - 1])
  }

  ghost function Entered(t: Tree, w: Walk, activation: Activation): Walk
    requires w.frames != [] && 0 <= w.frames[|w.frames| - 1].n < |t|
  {
    var f := w.frames[|w.frames| - 1];
    Walk(w.frames[|w.frames| - 1 := EnteredFrame(t, f, activation)], w.left,
         if IsElement(t, f.n) then w.evaluated + {f.n} else w.evaluated)
  }

  ghost function Deepened(t: Tree, w: Walk): Walk
    requires w.frames != [] && 0 <= w.frames[|w.frames| - 1].next < |t|
  {
    Walk(Descended(t, w.frames), w.left - {w.frames[|w.frames| - 1].next}, w.evaluated)
  }

  /** One step of the walk. */
  ghost predicate Next(t: Tree, index: Index, v: Walk, w: Walk) {
    v.frames != [] &&
    var f := v.frames[|v.frames| - 1];
    0 <= f.n < |t| &&
    if f.entered then
      if f.next == -1 then w == Popped(v) else 0 <= f.next < |t| && w == Deepened(t, v)
    else if NodeContentScope(t[f.n], f.scope) == InertScope then w == Popped(v)
    else exists act :: FrameActivated(t, index, EnteredFrame(t, f, act)) && w == Entered(t, v, act)
  }

  /** A run of the walk from its start. */
  ghost predicate Traced(t: Tree, index: Index, run: seq<Walk>)
    requires Parsed(t)
  {
    run != [] && run[0] == Start(t) && forall i :: 0 <= i < |run| - 1 ==> Next(t, index, run[i], run[i + 1])
  }

  ghost function Now(run: seq<Walk>): Walk
    requires run != []
  {
    run[|run| - 1]
  }

  /** What every state of a run keeps. */
  lemma {:induction false} TracedOk(t: Tree, index: Index, run: seq<Walk>)
    requires Parsed(t) && t != [] && Traced(t, index, run)
    ensures ActivationsOk(t, index, Now(run).frames) && WalkOk(t, Now(run).frames, Now(run).left, Now(run).evaluated)
  {
    var last := |run| - 1;
    if last == 0 {
      WalkStarts(t);
    } else {
      TracedOk(t, index, run[..last]);
      assert Next(t, index, run[last - 1], run[last - 1 + 1]);
      NextOk(t, index, run[last - 1], run[last]);
    }
  }

  lemma {:induction false} NextOk(t: Tree, index: Index, v: Walk, w: Walk)
    requires Parsed(t) && ActivationsOk(t, index, v.frames) && WalkOk(t, v.frames, v.left, v.evaluated)
    requires Next(t, index, v, w)
    ensures ActivationsOk(t, index, w.frames) && WalkOk(t, w.frames, w.left, w.evaluated)
  {
    NextWalkOk(t, index, v, w);
    NextActivationsOk(t, index, v, w);
  }

  lemma {:induction false} NextWalkOk(t: Tree, index: Index, v: Walk, w: Walk)
    requires Parsed(t) && WalkOk(t, v.frames, v.left, v.evaluated) && Next(t, index, v, w)
    ensures WalkOk(t, w.frames, w.left, w.evaluated)
  {
    var f := v.frames[|v.frames| - 1];
    if if f.entered then f.next == -1 else NodeContentScope(t[f.n], f.scope) == InertScope {
      PopOk(t, v.frames, v.left, v.evaluated);
    } else if f.entered {
      DescendOk(t, v.frames, v.left, v.evaluated);
    } else {
      var act :| FrameActivated(t, index, EnteredFrame(t, f, act)) && w == Entered(t, v, act);
      EnterOk(t, v.frames, v.left, v.evaluated, act);
    }
  }

  lemma {:induction false} NextActivationsOk(t: Tree, index: Index, v: Walk, w: Walk)
    requires ActivationsOk(t, index, v.frames) && Next(t, index, v, w)
    ensures ActivationsOk(t, index, w.frames)
  {
    var top := |v.frames| - 1;
    forall i | 0 <= i < |w.frames|
      ensures FrameActivated(t, index, w.frames[i])
    {
      assert i <= top ==> FrameActivated(t, index, v.frames[i]);
    }
  }

  /** One more step of a run. */
  ghost function Extended(t: Tree, index: Index, run: seq<Walk>, w: Walk): (more: seq<Walk>)
    requires Parsed(t) && Traced(t, index, run) && Next(t, index, Now(run), w)
    ensures Traced(t, index, more) && Now(more) == w
  {
    run + [w]
  }

  /** The little that one turn needs to know. */
  lemma {:induction false} TracedTop(t: Tree, index: Index, run: seq<Walk>)
    requires Parsed(t) && t != [] && Traced(t, index, run) && Now(run).frames != []
    ensures var w := Now(run);
            var f := w.frames[|w.frames| - 1];
            && 0 <= f.n < |t|
            && (f.entered && f.next != -1 ==> 0 <= f.next < |t| && f.next in w.left)
            && (!f.entered ==> PathIds(w.frames) == PathIds(w.frames[..|w.frames| - 1]))
  {
    TracedOk(t, index, run);
    var w := Now(run);
    var f := w.frames[|w.frames| - 1];
    assert FrameActivated(t, index, f);
    if f.entered && f.next != -1 {
      DescendOk(t, w.frames, w.left, w.evaluated);
    }
    InactiveIds();
  }

  lemma {:induction false} WalkEnds(t: Tree, left: set<int>, evaluated: set<int>)
    requires Parsed(t) && WalkOk(t, [], left, evaluated)
    ensures forall n :: n in evaluated <==> IsElement(t, n) && ScopeOf(t, n) != InertScope
  {
    forall n | IsElement(t, n) && ScopeOf(t, n) != InertScope
      ensures n in evaluated
    {
      AllVisited(t, left, n);
    }
  }

  lemma {:induction false} NoAncestorKinds(index: Index, t: Tree, n: int)
    requires IsElement(t, n) && !index.HasAncestorKinds()
    ensures Activates(index, t, n, INACTIVE)
  {
    forall k
      ensures k in SuppliedKeys(t, n) ==> index.Lookup(k) == []
    {
      SuppliedKeysMean(t, n, k);
      assert k in index.buckets ==> index.HasKind(k.kind);
    }
    InactiveIds();
  }

  class Walker {
    const sheet: Sheet
    const legacy: seq<seq<Declaration>>
    const inline: seq<seq<Declaration>>
    const states: seq<MediaState>
    /** Per node, the winners by trying every branch of every rule in source order. */
    ghost const reference: seq<Winners>

    constructor (sheet: Sheet, legacy: seq<seq<Declaration>>, inline: seq<seq<Declaration>>, states: seq<MediaState>)
      requires sheet.Fixed() && Grouped(sheet.rules, states)
      requires |legacy| == |inline| == |sheet.tree|
      requires forall n :: 0 <= n < |legacy| ==> Numbered(sheet.rules, legacy[n], inline[n])
      ensures this.sheet == sheet && this.legacy == legacy && this.inline == inline && this.states == states && Fixed()
    {
      this.sheet, this.legacy, this.inline, this.states := sheet, legacy, inline, states;
      reference := seq(|legacy|,
                       n requires 0 <= n < |legacy| => TryEverything(sheet.tree, sheet.rules, states, n, legacy[n],
                                                                     inline[n]));
    }

    /** What evaluating node `n` rests on, none of which ever changes. */
    ghost predicate Ready(n: int) {
      && sheet.Fixed() && Grouped(sheet.rules, states)
      && 0 <= n < |sheet.tree| == |legacy| == |inline| == |reference|
      && Numbered(sheet.rules, legacy[n], inline[n])
      && reference[n] == TryEverything(sheet.tree, sheet.rules, states, n, legacy[n], inline[n])
    }

    ghost predicate Fixed() {
      && Parsed(sheet.tree)
      && forall n {:trigger Ready(n)} :: 0 <= n < |sheet.tree| ==> Ready(n)
    }

    ghost predicate Agree(results: map<int, Winners>) {
      forall n :: n in results ==> 0 <= n < |reference| && results[n] == reference[n]
    }

    /** While ancestor buckets exist, the active list counts the path. */
    ghost predicate Counting(m: multiset<nat>)
      reads sheet.active
    {
      sheet.index.HasAncestorKinds() ==> InStep(sheet.index, sheet.active.State(), m)
    }

    /** Evaluate every element outside inert content, by the indexed fast path,
        exactly as trying every rule would; the active list ends empty. */
    method Run() returns (results: map<int, Winners>)
      requires Fixed() && sheet.Caches() && sheet.tree != []
      modifies sheet, sheet.active, sheet.chains
      ensures sheet.Caches() && Agree(results)
      ensures forall n :: n in results <==> IsElement(sheet.tree, n) && ScopeOf(sheet.tree, n) != InertScope
      ensures sheet.index.HasAncestorKinds() ==> sheet.active.buckets == []
    {
      results := map[];
      if sheet.index.HasAncestorKinds() {
        sheet.active.Reset(sheet.index.count);
      }
      var frames := [Frame(0, -1, false, ActiveScope, INACTIVE)];
      ghost var run := [Start(sheet.tree)];
      WalkStarts(sheet.tree);
      while frames != []
        invariant Tracks(run, frames, results)
        invariant sheet.Caches() && Agree(results) && Counting(PathIds(frames))
        decreases 2 * |Now(run).left| + |frames|
      {
        frames, results, run := Step(frames, results, run);
      }
      TracedOk(sheet.tree, sheet.index, run);
      WalkEnds(sheet.tree, Now(run).left, results.Keys);
      if sheet.index.HasAncestorKinds() {
        sheet.active.State().InactiveIsEmpty();
      }
    }

    /** The frames and results are where the run stands. */
    ghost predicate Tracks(run: seq<Walk>, frames: seq<Frame>, results: map<int, Winners>) {
      && Parsed(sheet.tree) && sheet.tree != [] && Traced(sheet.tree, sheet.index, run)
      && Now(run).frames == frames && Now(run).evaluated == results.Keys
    }

    /** One turn of the walk: skip an inert node, or enter the node if needed and
        then leave it or go down to its next child. */
    method Step(before: seq<Frame>, known: map<int, Winners>, ghost so: seq<Walk>)
      returns (frames: seq<Frame>, results: map<int, Winners>, ghost run: seq<Walk>)
      requires Fixed() && Tracks(so, before, known) && before != []
      requires sheet.Caches() && Agree(known) && Counting(PathIds(before))
      modifies sheet, sheet.active, sheet.chains
      ensures Tracks(run, frames, results)
      ensures sheet.Caches() && Agree(results) && Counting(PathIds(frames))
      ensures 2 * |Now(run).left| + |frames| < 2 * |Now(so).left| + |before|
    {
      var top := |before| - 1;
      frames, results, run := before, known, so;
      TracedTop(sheet.tree, sheet.index, run);
      if !frames[top].entered && NodeContentScope(sheet.tree[frames[top].n], frames[top].scope) == InertScope {
        run := Extended(sheet.tree, sheet.index, run, Popped(Now(run)));
        frames := frames[..top];
        return;
      }
      if !frames[top].entered {
        frames, results, run := Enter(frames, results, run);
      }
      frames, run := Proceed(frames, results, run);
    }

    /** Leave the entered top node, or push its next child. */
    method Proceed(before: seq<Frame>, ghost results: map<int, Winners>, ghost so: seq<Walk>)
      returns (frames: seq<Frame>, ghost run: seq<Walk>)
      requires Fixed() && Tracks(so, before, results) && before != [] && before[|before| - 1].entered
      requires Counting(PathIds(before))
      modifies sheet.active
      ensures Tracks(run, frames, results) && Counting(PathIds(frames))
      ensures 2 * |Now(run).left| + |frames| < 2 * |Now(so).left| + |before|
    {
      TracedTop(sheet.tree, sheet.index, so);
      if before[|before| - 1].next == -1 {
        Leave(before, so);
        frames := before[..|before| - 1];
        run := Extended(sheet.tree, sheet.index, so, Popped(Now(so)));
      } else {
        frames := Descended(sheet.tree, before);
        run := Extended(sheet.tree, sheet.index, so, Deepened(sheet.tree, Now(so)));
        DescendIds(sheet.tree, before);
      }
    }

    /** Evaluate the top node if it is an element, and mark it entered. */
    method Enter(before: seq<Frame>, known: map<int, Winners>, ghost so: seq<Walk>)
      returns (frames: seq<Frame>, results: map<int, Winners>, ghost run: seq<Walk>)
      requires Fixed() && Tracks(so, before, known) && before != [] && !before[|before| - 1].entered
      requires sheet.Caches() && Agree(known) && Counting(PathIds(before))
      requires 0 <= before[|before| - 1].n < |sheet.tree|
      requires NodeContentScope(sheet.tree[before[|before| - 1].n], before[|before| - 1].scope) != InertScope
      modifies sheet, sheet.active, sheet.chains
      ensures Tracks(run, frames, results) && Now(run).left == Now(so).left
      ensures sheet.Caches() && Agree(results) && Counting(PathIds(frames))
      ensures |frames| == |before| && frames[|frames| - 1].entered
    {
      var n := before[|before| - 1].n;
      var activation := INACTIVE;
      results := known;
      if sheet.tree[n].element {
        var won;
        won, activation := EnterElement(before, so);
        results := known[n := won];
        AgreeMore(known, n, won);
      } else {
        InactiveIds();
      }
      frames, run := EnteredFrames(before, activation, so, results);
    }

    lemma {:induction false} AgreeMore(results: map<int, Winners>, n: int, w: Winners)
      requires Agree(results) && 0 <= n < |reference| && w == reference[n]
      ensures Agree(results[n := w]) && results[n := w].Keys == results.Keys + {n}
    {
      assert forall m :: m in results[n := w] ==> m == n || m in results;
    }

    /** Mark the top frame entered, with its first child next. */
    method EnteredFrames(before: seq<Frame>, activation: Activation, ghost so: seq<Walk>,
                         ghost results: map<int, Winners>)
      returns (frames: seq<Frame>, ghost run: seq<Walk>)
      requires Parsed(sheet.tree) && sheet.tree != [] && Traced(sheet.tree, sheet.index, so) && Now(so).frames == before
      requires before != [] && !before[|before| - 1].entered && 0 <= before[|before| - 1].n < |sheet.tree|
      requires NodeContentScope(sheet.tree[before[|before| - 1].n], before[|before| - 1].scope) != InertScope
      requires FrameActivated(sheet.tree, sheet.index, EnteredFrame(sheet.tree, before[|before| - 1], activation))
      requires results.Keys ==
               if IsElement(sheet.tree, before[|before| - 1].n) then Now(so).evaluated + {before[|before| - 1].n}
                   else Now(so).evaluated
      ensures Tracks(run, frames, results) && Now(run).left == Now(so).left
      ensures |frames| == |before| && frames[|frames| - 1].entered
      ensures PathIds(frames) == PathIds(before) + Ids(activation.Buckets())
    {
      var top := |before| - 1;
      var f := before[top];
      TracedTop(sheet.tree, sheet.index, so);
      frames := before[top := Frame(f.n, FirstChild(sheet.tree, f.n), true,
                                    NodeContentScope(sheet.tree[f.n], f.scope), activation)];
      run := Extended(sheet.tree, sheet.index, so, Entered(sheet.tree, Now(so), activation));
      EnteredIds(before, frames[top]);
    }

    method EnterElement(before: seq<Frame>, ghost so: seq<Walk>) returns (w: Winners, activation: Activation)
      requires Fixed() && Traced(sheet.tree, sheet.index, so) && Now(so).frames == before
      requires before != [] && !before[|before| - 1].entered && IsElement(sheet.tree, before[|before| - 1].n)
      requires sheet.Caches() && Counting(PathIds(before))
      modifies sheet, sheet.active, sheet.chains
      ensures sheet.Caches() && before[|before| - 1].n < |reference| && w == reference[before[|before| - 1].n]
      ensures if HasElementChild(sheet.tree, before[|before| - 1].n)
              then Activates(sheet.index, sheet.tree, before[|before| - 1].n, activation) else activation == INACTIVE
      ensures Counting(PathIds(before) + Ids(activation.Buckets()))
    {
      var n := before[|before| - 1].n;
      assert Ready(n);
      ghost var ids, a := PathIds(before), sheet.active.State();
      activation := INACTIVE;
      InactiveIds();
      BucketsOfPath(so);
      w := sheet.ElementWinners(n, legacy[n], inline[n], states);
      assert sheet.active.State() == a;
      if HasElementChild(sheet.tree, n) {
        if sheet.index.HasAncestorKinds() {
          activation := ActivateAncestorBuckets(sheet, n, ids);
        } else {
          NoAncestorKinds(sheet.index, sheet.tree, n);
        }
      }
    }

    /** At a waiting element the active list is exactly its ancestors' buckets. */
    lemma {:induction false} BucketsOfPath(run: seq<Walk>)
      requires Fixed() && Traced(sheet.tree, sheet.index, run) && Counting(PathIds(Now(run).frames))
      requires Now(run).frames != []
      requires var f := Now(run).frames[|Now(run).frames| - 1]; !f.entered && IsElement(sheet.tree, f.n)
      ensures sheet.index.HasAncestorKinds() ==>
                Lists(sheet.index, PathKeys(sheet.tree, Now(run).frames[|Now(run).frames| - 1].n), sheet.active.buckets)
    {
      var frames := Now(run).frames;
      assert Ready(frames[|frames| - 1].n);
      if sheet.index.HasAncestorKinds() {
        TracedOk(sheet.tree, sheet.index, run);
        TracedTop(sheet.tree, sheet.index, run);
        PathKeyed(sheet.tree, sheet.index, frames);
        InStepLists(sheet.index, sheet.rules, sheet.active.State(), PathIds(frames),
                    PathKeys(sheet.tree, frames[|frames| - 1].n));
      }
    }

    /** Take the top element's contributions off the active list. */
    method Leave(frames: seq<Frame>, ghost run: seq<Walk>)
      requires Fixed() && sheet.tree != [] && Traced(sheet.tree, sheet.index, run) && Now(run).frames == frames != []
      requires Counting(PathIds(frames))
      modifies sheet.active
      ensures Counting(PathIds(frames[..|frames| - 1]))
    {
      assert Ready(0);
      if sheet.index.HasAncestorKinds() {
        TopActivation(run);
        DeactivateAncestorBuckets(sheet.index, sheet.active, frames[|frames| - 1].activation,
                                  PathIds(frames[..|frames| - 1]));
      }
    }

    lemma {:induction false} TopActivation(run: seq<Walk>)
      requires Parsed(sheet.tree) && sheet.tree != [] && Traced(sheet.tree, sheet.index, run) && Now(run).frames != []
      ensures FromIndex(sheet.index, Now(run).frames[|Now(run).frames| - 1].activation.Buckets())
    {
      TracedOk(sheet.tree, sheet.index, run);
      assert FrameActivated(sheet.tree, sheet.index, Now(run).frames[|Now(run).frames| - 1]);
    }
  }
}
