/** The boundaries the extractor generates around attachments, as texts are
    wrapped and joined. */
module AttachmentSpans {
  /** A generated section of a text: its opening with its metadata ends at
      `bodyStart`, and its closing tag runs from `closeStart` to `end`. */
  datatype Span = Span(start: nat, bodyStart: nat, closeStart: nat, end: nat, tag: string)

  /** A text with its generated sections. */
  datatype Section = Section(text: string, spans: seq<Span>)

  function OpenTag(tag: string): string {
    "<" + tag + ">\n"
  }

  function CloseTag(tag: string): string {
    "\n</" + tag + ">"
  }

  /** The span lies on the tags that were generated for it. */
  predicate Marks(text: string, s: Span) {
    && s.start < s.bodyStart <= s.closeStart < s.end <= |text|
    && OpenTag(s.tag) <= text[s.start..s.bodyStart]
    && text[s.closeStart..s.end] == CloseTag(s.tag)
  }

  /** The later span follows the earlier one or lies in its body. */
  predicate InOrder(s: Span, t: Span) {
    s.end <= t.start || (s.bodyStart <= t.start && t.end <= s.closeStart)
  }

  /** Spans in the order of their openings, properly nested, each on its tags. */
  ghost predicate WellNested(text: string, spans: seq<Span>) {
    && (forall i :: 0 <= i < |spans| ==> Marks(text, spans[i]))
    && (forall i, j :: 0 <= i < j < |spans| ==> InOrder(spans[i], spans[j]))
  }

  /* Shifting. */

  function Shifted(s: Span, offset: nat): Span {
    Span(s.start + offset, s.bodyStart + offset, s.closeStart + offset, s.end + offset, s.tag)
  }

  function AllShifted(spans: seq<Span>, offset: nat): (r: seq<Span>)
    ensures |r| == |spans| && forall i :: 0 <= i < |spans| ==> r[i] == Shifted(spans[i], offset)
  {
    seq(|spans|, i requires 0 <= i < |spans| => Shifted(spans[i], offset))
  }

  /** Append the spans of a text that starts at `offset`. */
  method AppendSpans(dst: seq<Span>, src: seq<Span>, offset: nat) returns (r: seq<Span>)
    ensures r == dst + AllShifted(src, offset)
  {
    r := dst;
    for i := 0 to |src|
      invariant r == dst + AllShifted(src, offset)[..i]
    {
      var span := src[i];
      span := Span(span.start + offset, span.bodyStart + offset, span.closeStart + offset, span.end + offset, span.tag);
      r := r + [span];
    }
  }

  lemma {:induction false} ShiftedMarks(before: string, text: string, after: string, s: Span)
    requires Marks(text, s)
    ensures Marks(before + text + after, Shifted(s, |before|))
  {
    var whole, t := before + text + after, Shifted(s, |before|);
    assert whole[t.start..t.bodyStart] == text[s.start..s.bodyStart];
    assert whole[t.closeStart..t.end] == text[s.closeStart..s.end];
  }

  /* Wrapping. */

  function Wrapped(content: Section, prefix: string, tag: string): Section {
    Section(prefix + content.text + CloseTag(tag),
            [Span(0, |prefix|, |prefix| + |content.text|, |prefix| + |content.text| + |CloseTag(tag)|, tag)] +
            AllShifted(content.spans, |prefix|))
  }

  method Wrap(content: Section, prefix: string, tag: string) returns (r: Section)
    requires WellNested(content.text, content.spans) && OpenTag(tag) <= prefix
    ensures r == Wrapped(content, prefix, tag) && WellNested(r.text, r.spans)
  {
    var suffix := CloseTag(tag);
    var result := prefix + content.text + suffix;
    var spans := AppendSpans([Span(0, |prefix|, |prefix| + |content.text|, |result|, tag)], content.spans, |prefix|);
    WrappedNested(content, prefix, tag);
    r := Section(result, spans);
  }

  /** Wrapping keeps the sections inside the new one. */
  lemma {:induction false} WrappedNested(content: Section, prefix: string, tag: string)
    requires WellNested(content.text, content.spans) && OpenTag(tag) <= prefix
    ensures var r := Wrapped(content, prefix, tag); WellNested(r.text, r.spans)
  {
    var r := Wrapped(content, prefix, tag);
    forall i | 0 <= i < |r.spans|
      ensures Marks(r.text, r.spans[i])
    {
      if i == 0 {
        assert r.text[0..|prefix|] == prefix;
        assert r.text[|prefix| + |content.text|..] == CloseTag(tag);
        assert r.text[r.spans[0].closeStart..r.spans[0].end] == r.text[|prefix| + |content.text|..];
      } else {
        ShiftedMarks(prefix, content.text, CloseTag(tag), content.spans[i - 1]);
      }
    }
    forall i, j | 0 <= i < j < |r.spans|
      ensures InOrder(r.spans[i], r.spans[j])
    {
      assert Marks(content.text, content.spans[j - 1]);
      if i > 0 {
        assert InOrder(content.spans[i - 1], content.spans[j - 1]);
      }
    }
  }

  /* Joining. */

  const SEPARATOR := "\n\n"

  function Joined(parts: seq<Section>): Section {
    if parts == [] then Section("", [])
    else if |parts| == 1 then parts[0]
    else
      var before, last := Joined(parts[..|parts| - 1]), parts[|parts| - 1];
      var offset := |before.text| + |SEPARATOR|;
      Section(before.text + SEPARATOR + last.text, before.spans + AllShifted(last.spans, offset))
  }

  ghost predicate AllNested(parts: seq<Section>) {
    forall i :: 0 <= i < |parts| ==> WellNested(parts[i].text, parts[i].spans)
  }

  /** Joining keeps every part's sections where its text went. */
  lemma {:induction false} JoinedNested(parts: seq<Section>)
    requires AllNested(parts)
    ensures WellNested(Joined(parts).text, Joined(parts).spans)
  {
    if |parts| > 1 {
      var before, last := Joined(parts[..|parts| - 1]), parts[|parts| - 1];
      JoinedNested(parts[..|parts| - 1]);
      JoinedTwo(before, last);
    }
  }

  lemma {:induction false} JoinedTwo(before: Section, last: Section)
    requires WellNested(before.text, before.spans) && WellNested(last.text, last.spans)
    ensures WellNested(before.text + SEPARATOR + last.text,
                       before.spans + AllShifted(last.spans, |before.text| + |SEPARATOR|))
  {
    var lead := before.text + SEPARATOR;
    var text, spans := lead + last.text, before.spans + AllShifted(last.spans, |lead|);
    forall i | 0 <= i < |spans|
      ensures Marks(text, spans[i])
    {
      if i < |before.spans| {
        assert "" + before.text + (SEPARATOR + last.text) == text;
        ShiftedMarks("", before.text, SEPARATOR + last.text, before.spans[i]);
      } else {
        assert lead + last.text + "" == text;
        ShiftedMarks(lead, last.text, "", last.spans[i - |before.spans|]);
      }
    }
    forall i, j | 0 <= i < j < |spans|
      ensures InOrder(spans[i], spans[j])
    {
      if j < |before.spans| {
        assert InOrder(before.spans[i], before.spans[j]);
      } else if i < |before.spans| {
        assert Marks(before.text, before.spans[i]);
      } else {
        assert InOrder(last.spans[i - |before.spans|], last.spans[j - |before.spans|]);
      }
    }
  }

  /** Append one part to a joined text, tracking where it starts. */
  method JoinNext(ghost parts: seq<Section>, before: Section, first: bool, next: Section) returns (r: Section)
    requires before == Joined(parts) && (first <==> parts == [])
    ensures r == Joined(parts + [next])
  {
    var offset := |before.text|;
    var text := before.text;
    if !first {
      offset := offset + |SEPARATOR|;
      text := text + SEPARATOR;
    }
    var spans := AppendSpans(before.spans, next.spans, offset);
    r := Section(text + next.text, spans);
    assert (parts + [next])[..|parts|] == parts;
    if first {
      assert AllShifted(next.spans, 0) == next.spans;
      assert before.spans + next.spans == next.spans && before.text + next.text == next.text;
    }
  }
}
