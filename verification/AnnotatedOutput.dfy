/** Text written piece by piece under annotations, and rendered with tags. */
module AnnotatedOutput {
  import opened Annotations
  import opened AnnotatedRuns

  /* The markup of a stretch of items. */

  function Text(items: seq<Item>, active: Annotation, tags: Tags): string {
    Spelled(Markup(items, active), tags)
  }

  lemma {:induction false} SpelledFirst(t: Token, rest: seq<Token>, tags: Tags)
    ensures Spelled([t] + rest, tags) == Spelling(t, tags) + Spelled(rest, tags)
  {
    assert ([t] + rest)[1..] == rest;
  }

  lemma {:induction false} LeadText(text: string, a: Annotation, rest: seq<Item>, tags: Tags)
    ensures Text(Lead(text, a, rest), a, tags) == text + Text(rest, a, tags)
  {
    if text != "" {
      var tail := Lead(text[1..], a, rest);
      LeadText(text[1..], a, rest, tags);
      assert Lead(text, a, rest)[1..] == tail;
      assert Markup(Lead(text, a, rest), a) == [Character(text[0])] + Markup(tail, a);
      SpelledFirst(Character(text[0]), Markup(tail, a), tags);
      assert [text[0]] + (text[1..] + Text(rest, a, tags)) == text + Text(rest, a, tags);
    }
  }

  function Closing(active: Annotation, tags: Tags): string {
    if active == NONE then "" else tags.close(active.kind)
  }

  /** Text under no annotation, or under another one, closes the open tag first. */
  lemma {:induction false} Leaving(items: seq<Item>, active: Annotation, tags: Tags)
    requires active == NONE || items == [] || items[0].Omission? || items[0].annotation != active
    ensures Text(items, active, tags) == Closing(active, tags) + Text(items, NONE, tags)
  {
    if active != NONE {
      assert Markup(items, active) == [Close(active.kind)] + Markup(items, NONE);
      SpelledFirst(Close(active.kind), Markup(items, NONE), tags);
    }
  }

  lemma {:induction false} Entering(items: seq<Item>, a: Annotation, tags: Tags)
    requires items != [] && items[0].Shown? && items[0].annotation == a != NONE
    ensures Text(items, NONE, tags) == tags.open(a) + Text(items, a, tags)
  {
    assert Markup(items, NONE) == [Open(a)] + Markup(items, a);
    SpelledFirst(Open(a), Markup(items, a), tags);
  }

  lemma {:induction false} Omitting(rest: seq<Item>, tags: Tags)
    ensures Text([Omission] + rest, NONE, tags) == tags.open(OMISSION) + Text(rest, NONE, tags)
  {
    assert ([Omission] + rest)[1..] == rest;
    assert Markup([Omission] + rest, NONE) == [Omitted] + Markup(rest, NONE);
    SpelledFirst(Omitted, Markup(rest, NONE), tags);
  }

  /* Rendering, one run at a time. */

  /** The state of the renderer: what was written, blank text not yet placed,
      the open pair of tags, and whether stripped content came last. */
  datatype Rendering = Rendering(out: string, pending: string, active: Annotation, haveActive: bool,
                                 lastWasStripped: bool)

  function Active(r: Rendering): Annotation {
    if r.haveActive then r.active else NONE
  }

  /** The runs from `p` on complete what is written to the whole text. */
  ghost predicate Continues(runs: seq<Run>, p: nat, out: string, active: Annotation, tags: Tags) {
    p <= |runs| && out + Text(Items(runs, p), active, tags) == Text(Items(runs, 0), NONE, tags)
  }

  ghost predicate Upto(runs: seq<Run>, p: nat, out: string, active: Annotation, tags: Tags) {
    forall o {:trigger Continues(runs, p, o, active, tags)} :: o == out ==> Continues(runs, p, o, active, tags)
  }

  /** The runs below `k` are written, except for the blank ones from `p` on. */
  ghost predicate Tracks(runs: seq<Run>, p: nat, k: nat, r: Rendering, tags: Tags) {
    && p <= k <= |runs| && AllBlank(runs, p, k)
    && r.pending == TextBetween(runs, p, k)
    && Upto(runs, p, r.out, Active(r), tags)
    && Active(r) == Bridge(Before(runs, p), Before(runs, p)) && (r.haveActive ==> Tagged(r.active))
    && (r.lastWasStripped <==> IsStripped(Before(runs, p)))
  }

  function CloseActive(r: Rendering, tags: Tags): string {
    if r.haveActive then tags.close(r.active.kind) else ""
  }

  /** What the pending text and the rest show once content follows. */
  lemma {:induction false} PendingShows(runs: seq<Run>, p: nat, k: nat, r: Rendering, tags: Tags)
    requires Tracks(runs, p, k, r, tags)
    ensures var a := Bridge(Before(runs, p), After(runs, k));
            Items(runs, p) == Lead(r.pending, a, Items(runs, k)) && (a == NONE || a == Active(r))
  {
    BlankStretch(runs, p, k);
  }

  lemma {:induction false} Advance(runs: seq<Run>, p: nat, out: string, a: Annotation, more: string, q: nat,
                                   b: Annotation, tags: Tags)
    requires Upto(runs, p, out, a, tags) && p <= |runs| && q <= |runs|
    requires Text(Items(runs, p), a, tags) == more + Text(Items(runs, q), b, tags)
    ensures Upto(runs, q, out + more, b, tags)
  {
    assert Continues(runs, p, out, a, tags);
    assert out + more + Text(Items(runs, q), b, tags) == out + (more + Text(Items(runs, q), b, tags));
    assert Continues(runs, q, out + more, b, tags);
  }

  /** Closing the open tag places the pending text outside all tags. */
  lemma {:induction false} PlacedOutside(runs: seq<Run>, p: nat, k: nat, r: Rendering, tags: Tags)
    requires Tracks(runs, p, k, r, tags) && Bridge(Before(runs, p), After(runs, k)) == NONE
    requires var rest := Items(runs, k);
             Active(r) == NONE || rest == [] || rest[0].Omission? ||
             rest[0].annotation != Active(r)
    ensures Upto(runs, k, r.out + CloseActive(r, tags) + r.pending, NONE, tags)
  {
    PendingShows(runs, p, k, r, tags);
    Leaving(Items(runs, p), Active(r), tags);
    Advance(runs, p, r.out, Active(r), CloseActive(r, tags), p, NONE, tags);
    LeadText(r.pending, NONE, Items(runs, k), tags);
    Advance(runs, p, r.out + CloseActive(r, tags), NONE, r.pending, k, NONE, tags);
  }

  /** Without closing, the pending text joins the open pair of tags. */
  lemma {:induction false} PlacedInside(runs: seq<Run>, p: nat, k: nat, r: Rendering, tags: Tags)
    requires Tracks(runs, p, k, r, tags) && r.haveActive && After(runs, k) == Content(r.active)
    ensures Upto(runs, k, r.out + r.pending, r.active, tags)
  {
    PendingShows(runs, p, k, r, tags);
    LeadText(r.pending, r.active, Items(runs, k), tags);
    Advance(runs, p, r.out, r.active, r.pending, k, r.active, tags);
  }

  lemma {:induction false} OmissionWritten(runs: seq<Run>, k: nat, out: string, tags: Tags)
    requires k < |runs| && !Blank(runs[k].text) && runs[k].annotation.kind.Stripped?
    requires Upto(runs, k, out, NONE, tags)
    ensures Upto(runs, k + 1, if IsStripped(Before(runs, k)) then out else out + tags.open(OMISSION), NONE, tags)
  {
    if IsStripped(Before(runs, k)) {
      Advance(runs, k, out, NONE, "", k + 1, NONE, tags);
      assert out + "" == out;
    } else {
      Omitting(Items(runs, k + 1), tags);
      Advance(runs, k, out, NONE, tags.open(OMISSION), k + 1, NONE, tags);
    }
  }

  /** The annotation content is shown under. */
  function Shade(a: Annotation): Annotation {
    if Tagged(a) then a else NONE
  }

  lemma {:induction false} ValueWritten(runs: seq<Run>, k: nat, out: string, tags: Tags)
    requires k < |runs| && !Blank(runs[k].text) && !runs[k].annotation.kind.Stripped?
    requires Upto(runs, k, out, Shade(runs[k].annotation), tags)
    ensures Upto(runs, k + 1, out + runs[k].text, Shade(runs[k].annotation), tags)
  {
    var a := Shade(runs[k].annotation);
    LeadText(runs[k].text, a, Items(runs, k + 1), tags);
    Advance(runs, k, out, a, runs[k].text, k + 1, a, tags);
  }

  lemma {:induction false} FirstShown(runs: seq<Run>, k: nat)
    requires k < |runs| && !Blank(runs[k].text) && runs[k].text != "" && !runs[k].annotation.kind.Stripped?
    ensures Items(runs, k) != [] && Items(runs, k)[0] == Shown(runs[k].text[0], Shade(runs[k].annotation))
  {
  }

  lemma {:induction false} TagWritten(runs: seq<Run>, k: nat, out: string, tags: Tags)
    requires k < |runs| && !Blank(runs[k].text) && runs[k].text != "" && Tagged(runs[k].annotation)
    requires Upto(runs, k, out, NONE, tags)
    ensures Upto(runs, k, out + tags.open(runs[k].annotation), runs[k].annotation, tags)
  {
    var a := runs[k].annotation;
    FirstShown(runs, k);
    Entering(Items(runs, k), a, tags);
    Advance(runs, k, out, NONE, tags.open(a), k, a, tags);
  }

  method ShowStripped(ghost runs: seq<Run>, ghost p: nat, ghost k: nat, r: Rendering, tags: Tags) returns (s: Rendering)
    requires Tracks(runs, p, k, r, tags) && k < |runs| && !Blank(runs[k].text) && runs[k].annotation.kind.Stripped?
    ensures Tracks(runs, k + 1, k + 1, s, tags)
  {
    BeforeBlank(runs, p, k);
    PlacedOutside(runs, p, k, r, tags);
    var out := r.out + CloseActive(r, tags) + r.pending;
    OmissionWritten(runs, k, out, tags);
    if !r.lastWasStripped {
      out := out + tags.open(OMISSION);
    }
    s := r.(out := out, pending := "", haveActive := false, lastWasStripped := true);
  }

  method ShowUnmarked(ghost runs: seq<Run>, ghost p: nat, ghost k: nat, r: Rendering, value: string, tags: Tags)
    returns (s: Rendering)
    requires Tracks(runs, p, k, r, tags) && k < |runs| && !Blank(runs[k].text) && value != "" &&
             runs[k].annotation.kind.Unmarked?
    requires value == runs[k].text
    ensures Tracks(runs, k + 1, k + 1, s, tags)
  {
    FirstShown(runs, k);
    PlacedOutside(runs, p, k, r, tags);
    var out := r.out + CloseActive(r, tags) + r.pending;
    ValueWritten(runs, k, out, tags);
    s := r.(out := out + value, pending := "", haveActive := false, lastWasStripped := false);
  }

  method ShowTagged(ghost runs: seq<Run>, ghost p: nat, ghost k: nat, r: Rendering, annotation: Annotation,
                    value: string, tags: Tags) returns (s: Rendering)
    requires Tracks(runs, p, k, r, tags) && k < |runs| && !Blank(runs[k].text) && value != "" && Tagged(annotation)
    requires value == runs[k].text && annotation == runs[k].annotation
    ensures Tracks(runs, k + 1, k + 1, s, tags)
  {
    var out;
    if !r.haveActive || r.active != annotation {
      FirstShown(runs, k);
      PlacedOutside(runs, p, k, r, tags);
      out := r.out + CloseActive(r, tags) + r.pending;
      TagWritten(runs, k, out, tags);
      out := out + tags.open(annotation);
    } else {
      PlacedInside(runs, p, k, r, tags);
      out := r.out + r.pending;
    }
    ValueWritten(runs, k, out, tags);
    s := Rendering(out + value, "", annotation, true, false);
  }

  lemma {:induction false} Delayed(runs: seq<Run>, p: nat, k: nat, r: Rendering, tags: Tags)
    requires Tracks(runs, p, k, r, tags) && k < |runs| && Blank(runs[k].text)
    ensures Tracks(runs, p, k + 1, r.(pending := r.pending + runs[k].text), tags)
  {
  }

  /** Blank text waits for what follows; content is shown at once. */
  method ShowRun(ghost runs: seq<Run>, ghost p: nat, ghost k: nat, r: Rendering, annotation: Annotation,
                 value: string, tags: Tags)
    returns (s: Rendering, ghost q: nat)
    requires Tracks(runs, p, k, r, tags) && k < |runs| && runs[k] == Run(annotation, value) && value != ""
    ensures Tracks(runs, q, k + 1, s, tags)
  {
    var blank := WhitespaceOnly(value);
    if blank {
      Delayed(runs, p, k, r, tags);
      return r.(pending := r.pending + value), p;
    }
    q := k + 1;
    if annotation.kind.Stripped? {
      s := ShowStripped(runs, p, k, r, tags);
    } else if annotation.kind.Unmarked? {
      s := ShowUnmarked(runs, p, k, r, value, tags);
    } else {
      s := ShowTagged(runs, p, k, r, annotation, value, tags);
    }
  }

  lemma {:induction false} Started(runs: seq<Run>, tags: Tags)
    ensures Tracks(runs, 0, 0, Rendering("", "", NONE, false, false), tags)
  {
    assert Continues(runs, 0, "", NONE, tags);
  }

  lemma {:induction false} Finished(runs: seq<Run>, p: nat, r: Rendering, tags: Tags)
    requires Tracks(runs, p, |runs|, r, tags)
    ensures r.out + CloseActive(r, tags) + r.pending == Text(Items(runs, 0), NONE, tags)
  {
    PlacedOutside(runs, p, |runs|, r, tags);
    assert Continues(runs, |runs|, r.out + CloseActive(r, tags) + r.pending, NONE, tags);
  }

  method WhitespaceOnly(value: string) returns (blank: bool)
    ensures blank <==> Blank(value)
  {
    assert Blank(value) <==> AllPadding(value);
    if value == "" {
      return false;
    }
    for i := 0 to |value|
      invariant forall j :: 0 <= j < i ==> Padding(value[j])
    {
      if !Padding(value[i]) {
        return false;
      }
    }
    return true;
  }

  /* The output. */

  datatype Chunk = Chunk(start: nat, end: nat, annotation: Annotation)

  /** Annotated text as it was written, character by character. */
  function Written(runs: seq<Run>): seq<Item> {
    if runs == [] then []
    else Written(runs[..|runs| - 1]) + Lead(runs[|runs| - 1].text, runs[|runs| - 1].annotation, [])
  }

  lemma {:induction false} LeadAppends(s: string, t: string, a: Annotation)
    ensures Lead(s, a, []) + Lead(t, a, []) == Lead(s + t, a, [])
  {
    if s == "" {
      assert s + t == t;
    } else {
      LeadAppends(s[1..], t, a);
      assert (s + t)[1..] == s[1..] + t;
      assert [Shown(s[0], a)] + (Lead(s[1..], a, []) + Lead(t, a, [])) == Lead(s, a, []) + Lead(t, a, []);
    }
  }

  /** The runs are as long as they can be and none is empty. */
  ghost predicate Maximal(runs: seq<Run>) {
    && (forall i :: 0 <= i < |runs| ==> runs[i].text != "")
    && (forall i, j :: 0 <= i && j == i + 1 < |runs| ==> runs[i].annotation != runs[j].annotation)
  }

  /** The chunks cut the data up without gap or overlap. */
  ghost predicate Partition(data: string, chunks: seq<Chunk>) {
    && (chunks == [] <==> data == "")
    && (chunks != [] ==> chunks[0].start == 0 && chunks[|chunks| - 1].end == |data|)
    && (forall i :: 0 <= i < |chunks| ==> chunks[i].start < chunks[i].end <= |data|)
    && (forall i, j :: 0 <= i && j == i + 1 < |chunks| ==> chunks[i].end == chunks[j].start)
  }

  ghost function RunsOf(data: string, chunks: seq<Chunk>): (runs: seq<Run>)
    requires Partition(data, chunks)
    ensures |runs| == |chunks|
    ensures forall i :: 0 <= i < |chunks| ==> runs[i] == Run(chunks[i].annotation, data[chunks[i].start..chunks[i].end])
  {
    seq(|chunks|, i requires 0 <= i < |chunks| => Run(chunks[i].annotation, data[chunks[i].start..chunks[i].end]))
  }

  lemma {:induction false} SliceJoin(data: string, start: nat, end: nat)
    requires start <= end <= |data|
    ensures data[..start] + data[start..end] == data[..end]
  {
  }

  lemma {:induction false} WrittenCharacters(runs: seq<Run>, run: Run)
    ensures Characters(Written(runs + [run])) == Characters(Written(runs)) + run.text
  {
    assert (runs + [run])[..|runs|] == runs;
    CharactersLead(run.text, run.annotation, []);
    CharactersJoin(Written(runs), Lead(run.text, run.annotation, []));
  }

  /** The characters of the runs are the data. */
  lemma {:induction false} RunsAreData(data: string, chunks: seq<Chunk>, k: nat)
    requires Partition(data, chunks) && k <= |chunks|
    ensures Characters(Written(RunsOf(data, chunks)[..k])) == data[..if k == 0 then 0 else chunks[k - 1].end]
  {
    if k > 0 {
      var runs, chunk := RunsOf(data, chunks), chunks[k - 1];
      RunsAreData(data, chunks, k - 1);
      assert runs[..k] == runs[..k - 1] + [runs[k - 1]];
      WrittenCharacters(runs[..k - 1], runs[k - 1]);
      assert k > 1 ==> chunks[k - 2].end == chunk.start;
      SliceJoin(data, chunk.start, chunk.end);
    }
  }

  lemma {:induction false} CharactersJoin(xs: seq<Item>, ys: seq<Item>)
    ensures Characters(xs + ys) == Characters(xs) + Characters(ys)
  {
    if xs == [] {
      assert xs + ys == ys;
    } else {
      CharactersJoin(xs[1..], ys);
      assert (xs + ys)[1..] == xs[1..] + ys;
    }
  }

  class Output {
    var data: string
    var chunks: seq<Chunk>

    ghost predicate Valid()
      reads this
    {
      Partition(data, chunks) && Maximal(RunsOf(data, chunks))
    }

    ghost function Runs(): seq<Run>
      requires Valid()
      reads this
    {
      RunsOf(data, chunks)
    }

    constructor ()
      ensures Valid() && data == "" && Runs() == []
    {
      data, chunks := "", [];
    }

    /** Append text under an annotation. */
    method Write(annotation: Annotation, value: string)
      requires Valid()
      modifies this
      ensures Valid() && data == old(data) + value
      ensures Written(Runs()) == old(Written(Runs())) + Lead(value, annotation, [])
    {
      if value == "" {
        return;
      }
      var start := |data|;
      data := data + value;
      assert data[..start] == old(data) && data[start..] == value;
      ExtendChunk(annotation, start);
      RunsWithWritten(old(Runs()), annotation, value);
    }

    /** Bring the chunks up to the data written from `start` on: it lengthens the
        last run or starts a new one, and the chunks partition the data again. */
    method ExtendChunk(annotation: Annotation, start: nat)
      requires start < |data| && Partition(data[..start], chunks)
      modifies `chunks
      ensures Partition(data, chunks)
      ensures RunsOf(data, chunks) == RunsWith(old(RunsOf(data[..start], chunks)), annotation, data[start..])
    {
      ghost var before, value := data[..start], data[start..];
      assert before + value == data;
      MorePartition(before, chunks, annotation, value);
      MoreRuns(before, chunks, annotation, value, Extended(chunks, annotation, start, |data|));
      if |chunks| > 0 && chunks[|chunks| - 1].annotation == annotation {
        chunks := chunks[|chunks| - 1 := chunks[|chunks| - 1].(end := |data|)];
        return;
      }
      chunks := chunks + [Chunk(start, |data|, annotation)];
    }

    /** The one annotation all content is under, if there is one. */
    method UniformAnnotation() returns (found: Annotation, uniform: bool)
      requires Valid()
      ensures uniform <==> exists a :: AllUnder(Runs(), a)
      ensures uniform ==> AllUnder(Runs(), found)
    {
      var haveContent := false;
      found := NONE;
      for i := 0 to |chunks|
        invariant haveContent <==> exists j :: 0 <= j < i && !Blank(Runs()[j].text)
        invariant haveContent ==> forall j :: 0 <= j < i && !Blank(Runs()[j].text) ==> Runs()[j].annotation == found
      {
        var blank := WhitespaceOnly(data[chunks[i].start..chunks[i].end]);
        if blank {
          continue;
        }
        assert !Blank(Runs()[i].text);
        if !haveContent {
          found := chunks[i].annotation;
          haveContent := true;
          continue;
        }
        if chunks[i].annotation != found {
          return NONE, false;
        }
      }
      assert haveContent ==> AllUnder(Runs(), found);
      uniform := haveContent;
    }

    /** The text with its annotations as tags. */
    method RenderAnnotations() returns (text: string)
      requires Valid()
      ensures text == Text(Items(Runs(), 0), NONE, PROMPT_TAGS)
    {
      text := RenderWith(PROMPT_TAGS);
    }

    method RenderWith(tags: Tags) returns (text: string)
      requires Valid()
      ensures text == Text(Items(Runs(), 0), NONE, tags)
    {
      var r := Rendering("", "", NONE, false, false);
      ghost var runs, p := Runs(), 0;
      Started(runs, tags);
      for k := 0 to |chunks|
        invariant Tracks(runs, p, k, r, tags)
      {
        var annotation, value := chunks[k].annotation, data[chunks[k].start..chunks[k].end];
        r, p := ShowRun(runs, p, k, r, annotation, value, tags);
      }
      Finished(runs, p, r, tags);
      text := r.out + CloseActive(r, tags) + r.pending;
    }
  }

  /** There is content and all of it is under the annotation. */
  ghost predicate AllUnder(runs: seq<Run>, a: Annotation) {
    && (exists j :: 0 <= j < |runs| && !Blank(runs[j].text))
    && (forall j :: 0 <= j < |runs| && !Blank(runs[j].text) ==> runs[j].annotation == a)
  }

  ghost function Extended(chunks: seq<Chunk>, annotation: Annotation, start: nat, end: nat): seq<Chunk> {
    if chunks != [] && chunks[|chunks| - 1].annotation == annotation
    then chunks[|chunks| - 1 := chunks[|chunks| - 1].(end := end)]
    else chunks + [Chunk(start, end, annotation)]
  }

  lemma {:induction false} SameSlices(data: string, chunks: seq<Chunk>, value: string, after: seq<Chunk>, n: nat)
    requires Partition(data, chunks) && Partition(data + value, after) && n <= |chunks| && n <= |after|
    requires forall i :: 0 <= i < n ==> after[i] == chunks[i]
    ensures forall i :: 0 <= i < n ==> RunsOf(data + value, after)[i] == RunsOf(data, chunks)[i]
  {
    forall i | 0 <= i < n
      ensures RunsOf(data + value, after)[i] == RunsOf(data, chunks)[i]
    {
      assert (data + value)[chunks[i].start..chunks[i].end] == data[chunks[i].start..chunks[i].end];
    }
  }

  lemma {:induction false} MorePartition(data: string, chunks: seq<Chunk>, annotation: Annotation, value: string)
    requires Partition(data, chunks) && value != ""
    ensures Partition(data + value, Extended(chunks, annotation, |data|, |data + value|))
  {
  }

  /** Writing more lengthens the last run or starts a new one. */
  ghost function RunsWith(runs: seq<Run>, annotation: Annotation, value: string): seq<Run> {
    var n := |runs| - 1;
    if runs != [] && runs[n].annotation == annotation then runs[..n] + [Run(annotation, runs[n].text + value)]
    else runs + [Run(annotation, value)]
  }

  lemma {:induction false} LastRun(data: string, chunks: seq<Chunk>, annotation: Annotation, value: string,
                                   after: seq<Chunk>)
    requires Partition(data, chunks) && Partition(data + value, after) && chunks != []
    requires chunks[|chunks| - 1].annotation == annotation &&
             after == Extended(chunks, annotation, |data|, |data + value|)
    ensures var n := |chunks| - 1;
            RunsOf(data + value, after)[n] == Run(annotation, RunsOf(data, chunks)[n].text + value)
  {
    var start := chunks[|chunks| - 1].start;
    assert (data + value)[start..|data + value|] == data[start..|data|] + value;
  }

  lemma {:induction false} MoreRuns(data: string, chunks: seq<Chunk>, annotation: Annotation, value: string,
                                    after: seq<Chunk>)
    requires Partition(data, chunks) && value != "" && Partition(data + value, after)
    requires after == Extended(chunks, annotation, |data|, |data + value|)
    ensures RunsOf(data + value, after) == RunsWith(RunsOf(data, chunks), annotation, value)
  {
    var n := |chunks| - 1;
    if chunks != [] && chunks[n].annotation == annotation {
      SameSlices(data, chunks, value, after, n);
      LastRun(data, chunks, annotation, value, after);
    } else {
      SameSlices(data, chunks, value, after, n + 1);
      assert (data + value)[|data|..|data + value|] == value;
    }
  }

  lemma {:induction false} RunsWithWritten(runs: seq<Run>, annotation: Annotation, value: string)
    requires Maximal(runs) && value != ""
    ensures Maximal(RunsWith(runs, annotation, value))
    ensures Written(RunsWith(runs, annotation, value)) == Written(runs) + Lead(value, annotation, [])
  {
    var n, more := |runs| - 1, RunsWith(runs, annotation, value);
    if runs != [] && runs[n].annotation == annotation {
      assert more[..n] == runs[..n];
      LeadAppends(runs[n].text, value, annotation);
      assert Written(runs[..n]) + Lead(runs[n].text, annotation, []) + Lead(value, annotation, []) ==
             Written(runs[..n]) + (Lead(runs[n].text, annotation, []) + Lead(value, annotation, []));
    } else {
      assert more[..n + 1] == runs;
    }
  }

  /* What rendering promises. */

  /** Rendered text is balanced markup that shows exactly the items of the runs,
      and all their text but the stripped content. */
  lemma {:induction false} RenderedFaithfully(runs: seq<Run>)
    ensures var tokens := Markup(Items(runs, 0), NONE);
            Balanced(tokens, NONE) && ReadBack(tokens, NONE) == Items(runs, 0) &&
            Characters(ReadBack(tokens, NONE)) == Remaining(runs, 0)
  {
    ItemsShowable(runs, 0);
    MarkupReadsBack(Items(runs, 0), NONE);
    ItemsKeepText(runs, 0);
  }
}
