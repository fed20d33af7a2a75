/** Cutting an over-long body short while keeping the generated attachment
    boundaries balanced. */
module AttachmentSampling {
  import opened AttachmentSpans

  /** The opening was kept and the closing tag was not. */
  predicate Unclosed(s: Span, cut: nat) {
    s.bodyStart <= cut <= s.closeStart
  }

  /** The cut tears neither the opening nor the closing tag. */
  predicate Clear(s: Span, cut: nat) {
    cut <= s.start || s.end <= cut || Unclosed(s, cut)
  }

  predicate AllClear(spans: seq<Span>, cut: nat) {
    forall i :: 0 <= i < |spans| ==> Clear(spans[i], cut)
  }

  /** The furthest cut within the allowance that tears nothing. */
  ghost predicate Furthest(spans: seq<Span>, allowance: nat, cut: nat) {
    && cut <= allowance && AllClear(spans, cut)
    && (forall other: nat {:trigger AllClear(spans, other)} :: other <= allowance && AllClear(spans, other) ==>
        other <= cut)
  }

  /** The closing tags a cut leaves missing, the innermost first. */
  function Closings(spans: seq<Span>, cut: nat): string {
    if spans == [] then ""
    else Closings(spans[1..], cut) + if Unclosed(spans[0], cut) then CloseTag(spans[0].tag) else ""
  }

  function Cut(body: string, spans: seq<Span>, cut: nat, notice: string): string
    requires cut <= |body|
  {
    body[..cut] + notice + Closings(spans, cut)
  }

  /* What a cut leaves is again properly nested. */

  /** The sections a cut keeps: those it passed are unchanged, and those it
      fell into end in the closing tags written from `base` on. */
  function Kept(spans: seq<Span>, cut: nat, base: nat): seq<Span> {
    if spans == [] then []
    else
      var s, rest := spans[0], Kept(spans[1..], cut, base);
      if cut <= s.start then rest else [AfterCut(spans, cut, base)] + rest
  }

  function AfterCut(spans: seq<Span>, cut: nat, base: nat): Span
    requires spans != []
  {
    var s := spans[0];
    if s.end <= cut then s
    else Span(s.start, s.bodyStart, base + |Closings(spans[1..], cut)|, base + |Closings(spans, cut)|, s.tag)
  }

  /** A section keeps its place before every later section that is kept. */
  lemma {:induction false} KeptInOrder(s: Span, t: Span, spans: seq<Span>, cut: nat, base: nat)
    requires cut <= base && s.start < cut
    requires s.start < s.bodyStart <= s.closeStart < s.end && Clear(s, cut)
    requires if s.end <= cut then t == s
             else t.bodyStart == s.bodyStart && base + |Closings(spans, cut)| <= t.closeStart
    requires AllClear(spans, cut)
    requires forall i :: 0 <= i < |spans| ==>
               InOrder(s, spans[i]) && spans[i].start < spans[i].bodyStart <= spans[i].closeStart < spans[i].end
    ensures forall i :: 0 <= i < |Kept(spans, cut, base)| ==> InOrder(t, Kept(spans, cut, base)[i])
  {
    if spans != [] {
      var u := spans[0];
      assert Clear(u, cut) && InOrder(s, u);
      KeptInOrder(s, t, spans[1..], cut, base);
      if u.start < cut {
        assert InOrder(t, AfterCut(spans, cut, base));
      }
    }
  }

  /** In any text that continues the cut, the kept sections are properly
      nested and on their tags. */
  lemma {:induction false} KeptNested(body: string, spans: seq<Span>, cut: nat, notice: string, text: string)
    requires WellNested(body, spans) && cut <= |body| && AllClear(spans, cut)
    requires Cut(body, spans, cut, notice) <= text
    ensures WellNested(text, Kept(spans, cut, cut + |notice|))
  {
    if spans != [] {
      var base, s := cut + |notice|, spans[0];
      CutLonger(body, spans, cut, notice, text);
      KeptNested(body, spans[1..], cut, notice, text);
      assert Clear(s, cut);
      if s.start < cut {
        AfterCutMarks(body, spans, cut, notice, text);
        KeptInOrder(s, AfterCut(spans, cut, base), spans[1..], cut, base);
        Prepended(text, AfterCut(spans, cut, base), Kept(spans[1..], cut, base));
      }
    }
  }

  lemma {:induction false} CutLonger(body: string, spans: seq<Span>, cut: nat, notice: string, text: string)
    requires spans != [] && cut <= |body| && Cut(body, spans, cut, notice) <= text
    ensures Cut(body, spans[1..], cut, notice) <= text
  {
    assert Cut(body, spans[1..], cut, notice) <= Cut(body, spans, cut, notice);
  }

  lemma {:induction false} Prepended(text: string, s: Span, spans: seq<Span>)
    requires WellNested(text, spans) && Marks(text, s)
    requires forall i :: 0 <= i < |spans| ==> InOrder(s, spans[i])
    ensures WellNested(text, [s] + spans)
  {
  }

  lemma {:induction false} AfterCutMarks(body: string, spans: seq<Span>, cut: nat, notice: string, text: string)
    requires spans != [] && Marks(body, spans[0]) && spans[0].start < cut <= |body| && Clear(spans[0], cut)
    requires Cut(body, spans, cut, notice) <= text
    ensures Marks(text, AfterCut(spans, cut, cut + |notice|))
  {
    var s, t, sample := spans[0], AfterCut(spans, cut, cut + |notice|), Cut(body, spans, cut, notice);
    assert text[..cut] == sample[..cut] == body[..cut];
    assert text[s.start..s.bodyStart] == text[..cut][s.start..s.bodyStart] == body[..cut][s.start..s.bodyStart] ==
           body[s.start..s.bodyStart];
    if s.end <= cut {
      assert text[s.closeStart..s.end] == text[..cut][s.closeStart..s.end] == body[..cut][s.closeStart..s.end] ==
             body[s.closeStart..s.end];
    } else {
      assert text[t.closeStart..t.end] == sample[t.closeStart..t.end] == CloseTag(s.tag);
    }
  }

  /* The sampling loop. */

  /** Move the cut out of every opening and closing tag it falls into. */
  method ClearCut(ghost text: string, spans: seq<Span>, allowance: nat) returns (cut: nat)
    requires WellNested(text, spans)
    ensures Furthest(spans, allowance, cut)
  {
    cut := allowance;
    for k := 0 to |spans|
      invariant cut <= allowance && forall i :: 0 <= i < k ==> Clear(spans[i], cut)
      invariant forall other: nat {:trigger AllClear(spans, other)} ::
                  other <= allowance && AllClear(spans, other) ==> other <= cut
    {
      ghost var was := cut;
      var span := spans[k];
      if cut > span.start && cut < span.bodyStart {
        cut := span.start;
      }
      if cut >= span.closeStart && cut < span.end {
        cut := span.closeStart;
      }
      assert Marks(text, span);
      forall i | 0 <= i < k
        ensures Clear(spans[i], cut)
      {
        assert Clear(spans[i], was) && InOrder(spans[i], span) && Marks(text, spans[i]);
      }
      forall other: nat | other <= allowance && AllClear(spans, other)
        ensures other <= cut
      {
        assert Clear(span, other);
      }
    }
  }

  method WriteClosings(spans: seq<Span>, cut: nat) returns (closing: string)
    ensures closing == Closings(spans, cut)
  {
    closing := "";
    for i := |spans| downto 0
      invariant closing == Closings(spans[i..], cut)
    {
      assert spans[i..][1..] == spans[i + 1..];
      if cut >= spans[i].bodyStart && cut <= spans[i].closeStart {
        closing := closing + CloseTag(spans[i].tag);
      }
    }
    assert spans[0..] == spans;
  }

  /** What the notice and the closing tags take after a cut. */
  function SuffixSize(spans: seq<Span>, cut: nat, notice: string): nat {
    |notice| + |Closings(spans, cut)|
  }

  /** The cuts tried in turn: the first is the furthest within the limit, and each
      that is too long leaves the next what its own notice and tags leave. */
  ghost predicate Tried(spans: seq<Span>, maxChars: nat, notice: string, cuts: seq<nat>) {
    && cuts != [] && Furthest(spans, maxChars, cuts[0])
    && forall i, j :: 0 <= i < |cuts| && j == i + 1 < |cuts| ==> NextTry(spans, maxChars, notice, cuts[i], cuts[j])
  }

  ghost predicate NextTry(spans: seq<Span>, maxChars: nat, notice: string, cut: nat, next: nat) {
    && SuffixSize(spans, cut, notice) < maxChars < cut + SuffixSize(spans, cut, notice)
    && Furthest(spans, maxChars - SuffixSize(spans, cut, notice), next)
  }

  /** Some cut that is tried leaves no room for any text. */
  ghost predicate NoRoom(spans: seq<Span>, maxChars: nat, notice: string) {
    exists cuts :: Tried(spans, maxChars, notice, cuts) && NoneLeft(spans, maxChars, notice, cuts[|cuts| - 1])
  }

  predicate NoneLeft(spans: seq<Span>, maxChars: nat, notice: string, cut: nat) {
    maxChars <= SuffixSize(spans, cut, notice) && maxChars < cut + SuffixSize(spans, cut, notice)
  }

  predicate Fits(spans: seq<Span>, maxChars: nat, notice: string, cut: nat) {
    cut + SuffixSize(spans, cut, notice) <= maxChars
  }

  /** The text is the body cut at the first try that fits. */
  ghost predicate SampledAt(body: string, spans: seq<Span>, maxChars: nat, notice: string, text: string,
                            cuts: seq<nat>) {
    && Tried(spans, maxChars, notice, cuts)
    && var cut := cuts[|cuts| - 1];
    && Fits(spans, maxChars, notice, cut) && cut <= |body|
    && text == Cut(body, spans, cut, notice) && |text| <= maxChars
    && WellNested(text, Kept(spans, cut, cut + |notice|))
  }

  /** The tries are forced. */
  lemma {:induction false} SameTries(spans: seq<Span>, maxChars: nat, notice: string, a: seq<nat>, b: seq<nat>, i: nat)
    requires Tried(spans, maxChars, notice, a) && Tried(spans, maxChars, notice, b) && i < |a| && i < |b|
    ensures a[i] == b[i]
  {
    if i == 0 {
      OneFurthest(spans, maxChars, a[0], b[0]);
    } else {
      SameTries(spans, maxChars, notice, a, b, i - 1);
      assert NextTry(spans, maxChars, notice, a[i - 1], a[i]) && NextTry(spans, maxChars, notice, b[i - 1], b[i]);
      OneFurthest(spans, maxChars - SuffixSize(spans, a[i - 1], notice), a[i], b[i]);
    }
  }

  lemma {:induction false} OneFurthest(spans: seq<Span>, allowance: nat, a: nat, b: nat)
    requires Furthest(spans, allowance, a) && Furthest(spans, allowance, b)
    ensures a == b
  {
  }

  /** A try that another follows was too long, and left room. */
  lemma {:induction false} TriedOn(spans: seq<Span>, maxChars: nat, notice: string, cuts: seq<nat>, i: nat)
    requires Tried(spans, maxChars, notice, cuts) && i + 1 < |cuts|
    ensures !Fits(spans, maxChars, notice, cuts[i]) && !NoneLeft(spans, maxChars, notice, cuts[i])
  {
    assert NextTry(spans, maxChars, notice, cuts[i], cuts[i + 1]);
  }

  /** Once a try fits, no try leaves no room. */
  lemma {:induction false} FitLeavesRoom(spans: seq<Span>, maxChars: nat, notice: string, cuts: seq<nat>,
                                         other: seq<nat>)
    requires Tried(spans, maxChars, notice, cuts) && Fits(spans, maxChars, notice, cuts[|cuts| - 1])
    requires Tried(spans, maxChars, notice, other)
    ensures !NoneLeft(spans, maxChars, notice, other[|other| - 1])
  {
    if |other| < |cuts| {
      TriedOn(spans, maxChars, notice, cuts, |other| - 1);
      SameTries(spans, maxChars, notice, cuts, other, |other| - 1);
    } else {
      SameTries(spans, maxChars, notice, cuts, other, |cuts| - 1);
      if |cuts| < |other| {
        TriedOn(spans, maxChars, notice, other, |cuts| - 1);
      }
    }
  }

  lemma {:induction false} TriedWithin(spans: seq<Span>, maxChars: nat, notice: string, cuts: seq<nat>)
    requires Tried(spans, maxChars, notice, cuts)
    ensures cuts[|cuts| - 1] <= maxChars
  {
    if |cuts| > 1 {
      assert NextTry(spans, maxChars, notice, cuts[|cuts| - 2], cuts[|cuts| - 1]);
    }
  }

  /** With room for the notice and the tags of any place, there is room. */
  lemma {:induction false} RoomEverywhere(spans: seq<Span>, maxChars: nat, notice: string)
    requires forall cut: nat {:trigger Closings(spans, cut)} :: cut <= maxChars ==>
               |notice| + |Closings(spans, cut)| < maxChars
    ensures !NoRoom(spans, maxChars, notice)
  {
    forall cuts | Tried(spans, maxChars, notice, cuts)
      ensures !NoneLeft(spans, maxChars, notice, cuts[|cuts| - 1])
    {
      TriedWithin(spans, maxChars, notice, cuts);
    }
  }

  /** Shorten an over-long body: generated sections stay balanced and the limit
      holds, unless the notice is all there is room for. */
  method SampleAttachmentBody(body: string, maxChars: int, spans: seq<Span>, notice: string) returns (r: string)
    requires WellNested(body, spans) && maxChars < |body|
    ensures maxChars < 1 ==> r == ""
    ensures maxChars >= 1 && spans == [] ==> r == body[..maxChars] + notice
    ensures maxChars >= 1 && spans != [] && NoRoom(spans, maxChars, notice) ==> r == notice
    ensures maxChars >= 1 && spans != [] && !NoRoom(spans, maxChars, notice) ==>
              exists cuts :: SampledAt(body, spans, maxChars, notice, r, cuts)
  {
    if maxChars < 1 {
      return "";
    }
    if spans == [] {
      return body[..maxChars] + notice;
    }
    var allowance := maxChars;
    ghost var cuts: seq<nat> := [];
    while true
      invariant 0 <= allowance <= maxChars
      invariant allowance > 0 ==> MayTry(spans, maxChars, notice, cuts, allowance)
      invariant allowance == 0 ==> NoRoom(spans, maxChars, notice)
      decreases allowance
    {
      var cut := ClearCut(body, spans, allowance);
      var closing := WriteClosings(spans, cut);
      var suffix := notice + closing;
      if cut + |suffix| <= maxChars || allowance == 0 {
        if allowance == 0 {
          return notice;
        }
        r := body[..cut] + suffix;
        FitSampled(body, spans, maxChars, notice, cuts, allowance, cut, r);
        return;
      }
      var excess := cut + |suffix| - maxChars;
      OverlongTried(spans, maxChars, notice, cuts, allowance, cut);
      cuts := cuts + [cut];
      allowance := Max(0, Min(allowance - 1, cut - excess));
    }
  }

  lemma {:induction false} FitSampled(body: string, spans: seq<Span>, maxChars: nat, notice: string, cuts: seq<nat>,
                                      allowance: nat, cut: nat, text: string)
    requires WellNested(body, spans) && 0 < allowance <= maxChars < |body|
    requires MayTry(spans, maxChars, notice, cuts, allowance) && Furthest(spans, allowance, cut)
    requires Fits(spans, maxChars, notice, cut) && text == body[..cut] + (notice + Closings(spans, cut))
    ensures !NoRoom(spans, maxChars, notice) && SampledAt(body, spans, maxChars, notice, text, cuts + [cut])
  {
    var all := cuts + [cut];
    TryNext(spans, maxChars, notice, cuts, allowance, cut);
    assert all[|all| - 1] == cut;
    FitHasRoom(spans, maxChars, notice, all);
    FitText(body, spans, maxChars, notice, all, cut, text);
  }

  lemma {:induction false} FitHasRoom(spans: seq<Span>, maxChars: nat, notice: string, cuts: seq<nat>)
    requires Tried(spans, maxChars, notice, cuts) && Fits(spans, maxChars, notice, cuts[|cuts| - 1])
    ensures !NoRoom(spans, maxChars, notice)
  {
    forall other | Tried(spans, maxChars, notice, other)
      ensures !NoneLeft(spans, maxChars, notice, other[|other| - 1])
    {
      FitLeavesRoom(spans, maxChars, notice, cuts, other);
    }
  }

  lemma {:induction false} FitText(body: string, spans: seq<Span>, maxChars: nat, notice: string, cuts: seq<nat>,
                                   cut: nat, text: string)
    requires WellNested(body, spans) && cut <= |body| && AllClear(spans, cut)
    requires Tried(spans, maxChars, notice, cuts) && cut == cuts[|cuts| - 1]
    requires Fits(spans, maxChars, notice, cut) && text == body[..cut] + (notice + Closings(spans, cut))
    ensures SampledAt(body, spans, maxChars, notice, text, cuts)
  {
    assert text == Cut(body, spans, cut, notice);
    KeptNested(body, spans, cut, notice, text);
  }

  lemma {:induction false} OverlongTried(spans: seq<Span>, maxChars: nat, notice: string, cuts: seq<nat>,
                                         allowance: nat, cut: nat)
    requires 0 < allowance && MayTry(spans, maxChars, notice, cuts, allowance) && Furthest(spans, allowance, cut)
    requires maxChars < cut + SuffixSize(spans, cut, notice)
    ensures SuffixSize(spans, cut, notice) < maxChars ==>
              MayTry(spans, maxChars, notice, cuts + [cut], maxChars - SuffixSize(spans, cut, notice))
    ensures maxChars <= SuffixSize(spans, cut, notice) ==> NoRoom(spans, maxChars, notice)
  {
    TryNext(spans, maxChars, notice, cuts, allowance, cut);
    assert (cuts + [cut])[|cuts|] == cut;
  }

  /** The next try may take up to this much. */
  ghost predicate MayTry(spans: seq<Span>, maxChars: nat, notice: string, cuts: seq<nat>, allowance: nat) {
    if cuts == [] then allowance == maxChars
    else
      var cut := cuts[|cuts| - 1];
      && Tried(spans, maxChars, notice, cuts)
      && allowance == maxChars - SuffixSize(spans, cut, notice) && maxChars < cut + SuffixSize(spans, cut, notice)
  }

  lemma {:induction false} TryNext(spans: seq<Span>, maxChars: nat, notice: string, cuts: seq<nat>, allowance: nat,
                                   cut: nat)
    requires allowance > 0 && MayTry(spans, maxChars, notice, cuts, allowance) && Furthest(spans, allowance, cut)
    ensures Tried(spans, maxChars, notice, cuts + [cut])
  {
    var more := cuts + [cut];
    forall i, j | 0 <= i < |more| && j == i + 1 < |more|
      ensures NextTry(spans, maxChars, notice, more[i], more[j])
    {
      if j < |cuts| {
        assert NextTry(spans, maxChars, notice, cuts[i], cuts[j]);
      }
    }
  }

  function Max(x: int, y: int): int {
    if x < y then y else x
  }

  function Min(x: int, y: int): int {
    if x < y then x else y
  }
}
