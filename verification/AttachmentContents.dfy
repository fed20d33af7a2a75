/** The three views of extracted content, and how wrapping an attachment and
    assembling the parts of a message keep every view's sections in place. */
module AttachmentContents {
  import opened AttachmentSpans

  /** Extracted content: the whole text, the text a reader sees, and the text
      without concealed content. `shared` says that the visible text is stored
      as the text itself, and `present` that anything was extracted at all. */
  datatype Content = Content(text: Section, visible: Section, stripped: Section, shared: bool, concealed: bool,
                             present: bool)

  datatype View = Plain | Visible | Stripped

  /** The section a part contributes to a view. A part that conceals nothing is
      its own stripped form. */
  function ViewOf(c: Content, v: View): Section {
    match v
    case Plain => c.text
    case Visible => c.visible
    case Stripped => if c.concealed then c.stripped else c.text
  }

  ghost predicate Consistent(c: Content) {
    && WellNested(c.text.text, c.text.spans)
    && WellNested(c.visible.text, c.visible.spans)
    && (c.concealed ==> WellNested(c.stripped.text, c.stripped.spans))
    && (c.shared ==> c.visible.text == c.text.text)
    && (!c.concealed ==> c.stripped.text == "" || c.stripped.text == c.text.text)
  }

  lemma {:induction false} ViewNested(c: Content, v: View)
    requires Consistent(c)
    ensures WellNested(ViewOf(c, v).text, ViewOf(c, v).spans)
  {
  }

  /* Wrapping. */

  const ATTACHED_FILE := "attached-file"
  const ATTACHED_EMAIL := "attached-email"
  const INCOMPLETE := "[attachment extraction incomplete]"

  function Marker(tag: string): Section {
    var t := if tag == ATTACHED_EMAIL then ATTACHED_EMAIL else ATTACHED_FILE;
    Wrapped(Section(INCOMPLETE, []), OpenTag(t), t)
  }

  /** Wrap every view of an attachment. When the budget stops the work, only a
      marker remains: no view shows the attachment's text unwrapped. */
  method WrapAttachment(c: Content, prefix: string, tag: string, omitContext: bool, complete: bool) returns (r: Content)
    requires Consistent(c) && OpenTag(tag) <= prefix
    ensures Consistent(r) && r.concealed == c.concealed
    ensures omitContext ==> r == c
    ensures !omitContext && complete ==> forall v :: ViewOf(r, v).text == Wrapped(ViewOf(c, v), prefix, tag).text
    ensures !omitContext && complete ==>
              r.text == Wrapped(c.text, prefix, tag) && r.stripped == Wrapped(ViewOf(c, Stripped), prefix, tag)
    ensures !omitContext && complete ==> r.visible == Wrapped(if c.shared then c.text else c.visible, prefix, tag)
    ensures !omitContext && !complete ==> forall v :: ViewOf(r, v) == Marker(tag)
  {
    if omitContext {
      return c;
    }
    if !complete {
      var t := if tag == ATTACHED_EMAIL then ATTACHED_EMAIL else ATTACHED_FILE;
      var marker := Wrap(Section(INCOMPLETE, []), OpenTag(t), t);
      return c.(text := marker, visible := marker, stripped := marker);
    }
    var text := Wrap(c.text, prefix, tag);
    var visible := text;
    if !c.shared {
      visible := Wrap(c.visible, prefix, tag);
    }
    var stripped := text;
    if c.concealed {
      stripped := Wrap(c.stripped, prefix, tag);
    }
    r := c.(text := text, visible := visible, stripped := stripped);
  }

  /* Assembling. */

  /** The sections a view is joined from. */
  function Sections(parts: seq<Content>, v: View): seq<Section> {
    if parts == [] then []
    else
      var before, last := Sections(parts[..|parts| - 1], v), parts[|parts| - 1];
      if last.present && (v.Stripped? ==> ViewOf(last, v).text != "") then before + [ViewOf(last, v)] else before
  }

  ghost predicate AllConsistent(parts: seq<Content>) {
    forall i :: 0 <= i < |parts| ==> Consistent(parts[i])
  }

  predicate AnyConcealed(parts: seq<Content>) {
    exists i :: 0 <= i < |parts| && parts[i].concealed
  }

  lemma {:induction false} SectionsNested(parts: seq<Content>, v: View)
    requires AllConsistent(parts)
    ensures AllNested(Sections(parts, v))
  {
    if parts != [] {
      SectionsNested(parts[..|parts| - 1], v);
      ViewNested(parts[|parts| - 1], v);
    }
  }

  /** What assembling has gathered so far. */
  datatype Gathered = Gathered(text: Section, visible: Section, stripped: Section, texts: nat, strips: nat,
                               shared: bool, concealed: bool)

  ghost predicate Tracks(parts: seq<Content>, g: Gathered) {
    && g.text == Joined(Sections(parts, Plain)) && g.texts == |Sections(parts, Plain)|
    && g.visible == Joined(Sections(parts, Visible)) && g.texts == |Sections(parts, Visible)|
    && g.stripped == Joined(Sections(parts, Stripped)) && g.strips == |Sections(parts, Stripped)|
    && (g.concealed <==> AnyConcealed(parts))
    && (g.shared ==> g.visible.text == g.text.text)
  }

  method AddTexts(ghost parts: seq<Content>, g: Gathered, part: Content) returns (r: Gathered)
    requires Tracks(parts, g) && Consistent(part)
    ensures r == g.(text := r.text, visible := r.visible, texts := g.texts + 1, shared := g.shared && part.shared)
    ensures r.text == Joined(Sections(parts, Plain) + [part.text])
    ensures r.visible == Joined(Sections(parts, Visible) + [part.visible])
    ensures r.shared ==> r.visible.text == r.text.text
  {
    var text := JoinNext(Sections(parts, Plain), g.text, g.texts == 0, part.text);
    var visible := JoinNext(Sections(parts, Visible), g.visible, g.texts == 0, part.visible);
    if g.shared && part.shared {
      SharedNext(Sections(parts, Plain), Sections(parts, Visible), part.text, part.visible);
    }
    r := g.(text := text, visible := visible, texts := g.texts + 1, shared := g.shared && part.shared);
  }

  method AddStripped(ghost sections: seq<Section>, before: Section, count: nat, part: Content)
    returns (stripped: Section, strips: nat)
    requires before == Joined(sections) && count == |sections| && Consistent(part)
    ensures var all := if ViewOf(part, Stripped).text != "" then sections + [ViewOf(part, Stripped)] else sections;
            stripped == Joined(all) && strips == |all|
  {
    stripped, strips := before, count;
    var text := part.stripped.text;
    if text == "" && !part.concealed {
      text := part.text.text;
    }
    if text != "" {
      var spans := part.stripped.spans;
      if !part.concealed {
        spans := part.text.spans;
      }
      stripped := JoinNext(sections, before, count == 0, Section(text, spans));
      strips := strips + 1;
    }
  }

  method AddPart(ghost parts: seq<Content>, g: Gathered, part: Content) returns (r: Gathered)
    requires Tracks(parts, g) && Consistent(part)
    ensures Tracks(parts + [part], r)
  {
    assert (parts + [part])[..|parts|] == parts;
    AnyConcealedNext(parts, part);
    r := g.(concealed := g.concealed || part.concealed);
    if part.present {
      var withTexts := AddTexts(parts, g, part);
      var stripped, strips := AddStripped(Sections(parts, Stripped), g.stripped, g.strips, part);
      r := withTexts.(stripped := stripped, strips := strips, concealed := r.concealed);
    }
  }

  /** Join the parts of a message, view by view. */
  method Assemble(parts: seq<Content>) returns (r: Content)
    requires AllConsistent(parts)
    ensures Consistent(r) && (r.concealed <==> AnyConcealed(parts))
    ensures forall v :: ViewOf(r, v) == Joined(Sections(parts, if v.Stripped? && !r.concealed then Plain else v))
  {
    var g := Gathered(Section("", []), Section("", []), Section("", []), 0, 0, true, false);
    for i := 0 to |parts|
      invariant Tracks(parts[..i], g)
    {
      g := AddPart(parts[..i], g, parts[i]);
      assert parts[..i] + [parts[i]] == parts[..i + 1];
    }
    assert parts[..|parts|] == parts;
    AssembledNested(parts, Plain);
    AssembledNested(parts, Visible);
    AssembledNested(parts, Stripped);
    r := Content(g.text, g.visible, if g.concealed then g.stripped else g.text, g.shared, g.concealed, g.texts > 0);
  }

  lemma {:induction false} AssembledNested(parts: seq<Content>, v: View)
    requires AllConsistent(parts)
    ensures WellNested(Joined(Sections(parts, v)).text, Joined(Sections(parts, v)).spans)
  {
    SectionsNested(parts, v);
    JoinedNested(Sections(parts, v));
  }

  lemma {:induction false} AnyConcealedNext(parts: seq<Content>, part: Content)
    ensures AnyConcealed(parts + [part]) <==> AnyConcealed(parts) || part.concealed
  {
    var all := parts + [part];
    if AnyConcealed(parts) {
      var j :| 0 <= j < |parts| && parts[j].concealed;
      assert all[j].concealed;
    }
    assert all[|parts|] == part;
  }

  lemma {:induction false} SharedNext(texts: seq<Section>, shown: seq<Section>, text: Section, visible: Section)
    requires |texts| == |shown| && Joined(texts).text == Joined(shown).text && text.text == visible.text
    ensures Joined(texts + [text]).text == Joined(shown + [visible]).text
  {
    assert (texts + [text])[..|texts|] == texts && (shown + [visible])[..|shown|] == shown;
  }
}
