/** What an annotated text shows: runs of text under one annotation each, with
    blank runs taking on the annotation around them. */
module AnnotatedRuns {
  import opened Annotations

  datatype Run = Run(annotation: Annotation, text: string)

  datatype Neighbour = Nothing | Content(annotation: Annotation)

  /** White space and the invisible characters that pad a preview. */
  predicate Padding(c: char) {
    var code := c as int;
    || 0x09 <= code <= 0x0d || code == 0x20 || code == 0x85 || code == 0xa0
    || code == 0x1680 || 0x2000 <= code <= 0x200a || code == 0x2028 || code == 0x2029
    || code == 0x202f || code == 0x205f || code == 0x3000
    || code == 0xad || code == 0x34f || code == 0x61c || code == 0x180e
    || 0x200b <= code <= 0x200f || code == 0x2060 || code == 0xfeff
  }

  predicate AllPadding(text: string) {
    text != "" && forall i :: 0 <= i < |text| ==> Padding(text[i])
  }

  ghost predicate Blank(text: string) {
    forall t {:trigger AllPadding(t)} :: t == text ==> AllPadding(t)
  }

  /** The text under an annotation, followed by other items. */
  function Lead(text: string, a: Annotation, rest: seq<Item>): seq<Item> {
    if text == "" then rest else [Shown(text[0], a)] + Lead(text[1..], a, rest)
  }

  /** The nearest run with content below position `k`. */
  ghost function Before(runs: seq<Run>, k: nat): Neighbour
    requires k <= |runs|
  {
    if k == 0 then Nothing
    else if Blank(runs[k - 1].text) then Before(runs, k - 1)
    else Content(runs[k - 1].annotation)
  }

  /** The nearest run with content from position `k` on. */
  ghost function After(runs: seq<Run>, k: nat): Neighbour
    requires k <= |runs|
    decreases |runs| - k
  {
    if k == |runs| then Nothing
    else if Blank(runs[k].text) then After(runs, k + 1)
    else Content(runs[k].annotation)
  }

  /** The annotation blank text is shown under: that of the content on both
      sides, if it is one and the same pair of tags. */
  function Bridge(before: Neighbour, after: Neighbour): Annotation {
    if before == after && before.Content? && Tagged(before.annotation) then before.annotation else NONE
  }

  predicate IsStripped(n: Neighbour) {
    n.Content? && n.annotation.kind.Stripped?
  }

  /** What the runs from `k` on show. Stripped content leaves one omission for
      each stretch that only blank text interrupts. */
  ghost function Items(runs: seq<Run>, k: nat): seq<Item>
    requires k <= |runs|
    decreases |runs| - k
  {
    if k == |runs| then []
    else
      var run, rest := runs[k], Items(runs, k + 1);
      if Blank(run.text) then Lead(run.text, Bridge(Before(runs, k), After(runs, k + 1)), rest)
      else if Tagged(run.annotation) then Lead(run.text, run.annotation, rest)
      else if run.annotation.kind.Unmarked? then Lead(run.text, NONE, rest)
      else if IsStripped(Before(runs, k)) then rest else [Omission] + rest
  }

  lemma {:induction false} LeadShowable(text: string, a: Annotation, rest: seq<Item>)
    requires Showable(rest) && (a == NONE || Tagged(a))
    ensures Showable(Lead(text, a, rest))
  {
    if text != "" {
      LeadShowable(text[1..], a, rest);
    }
  }

  /** Every annotation shown has tags or is none. */
  lemma {:induction false} ItemsShowable(runs: seq<Run>, k: nat)
    requires k <= |runs|
    ensures Showable(Items(runs, k))
    decreases |runs| - k
  {
    if k < |runs| {
      var run, rest := runs[k], Items(runs, k + 1);
      ItemsShowable(runs, k + 1);
      LeadShowable(run.text, Bridge(Before(runs, k), After(runs, k + 1)), rest);
      LeadShowable(run.text, NONE, rest);
      if Tagged(run.annotation) {
        LeadShowable(run.text, run.annotation, rest);
      }
    }
  }

  function Characters(items: seq<Item>): string {
    if items == [] then ""
    else if items[0].Shown? then [items[0].c] + Characters(items[1..])
    else Characters(items[1..])
  }

  /** The text of the runs without their stripped content. */
  ghost function Remaining(runs: seq<Run>, k: nat): string
    requires k <= |runs|
    decreases |runs| - k
  {
    if k == |runs| then ""
    else if runs[k].annotation.kind.Stripped? && !Blank(runs[k].text) then Remaining(runs, k + 1)
    else runs[k].text + Remaining(runs, k + 1)
  }

  lemma {:induction false} CharactersLead(text: string, a: Annotation, rest: seq<Item>)
    ensures Characters(Lead(text, a, rest)) == text + Characters(rest)
  {
    if text != "" {
      CharactersLead(text[1..], a, rest);
      assert Lead(text, a, rest)[1..] == Lead(text[1..], a, rest);
      assert [text[0]] + (text[1..] + Characters(rest)) == text + Characters(rest);
    }
  }

  /** All text but the stripped content is shown, in order. */
  lemma {:induction false} ItemsKeepText(runs: seq<Run>, k: nat)
    requires k <= |runs|
    ensures Characters(Items(runs, k)) == Remaining(runs, k)
    decreases |runs| - k
  {
    if k < |runs| {
      var run, rest := runs[k], Items(runs, k + 1);
      ItemsKeepText(runs, k + 1);
      if Blank(run.text) {
        CharactersLead(run.text, Bridge(Before(runs, k), After(runs, k + 1)), rest);
      } else if run.annotation.kind.Stripped? {
        assert ([Omission] + rest)[1..] == rest;
      } else {
        CharactersLead(run.text, if Tagged(run.annotation) then run.annotation else NONE, rest);
      }
    }
  }

  ghost predicate AllBlank(runs: seq<Run>, from: nat, to: nat) {
    forall i :: from <= i < to && i < |runs| ==> Blank(runs[i].text)
  }

  lemma {:induction false} BeforeBlank(runs: seq<Run>, p: nat, k: nat)
    requires p <= k <= |runs| && AllBlank(runs, p, k)
    ensures Before(runs, k) == Before(runs, p)
  {
    if p < k {
      BeforeBlank(runs, p, k - 1);
    }
  }

  lemma {:induction false} AfterBlank(runs: seq<Run>, p: nat, k: nat)
    requires p <= k <= |runs| && AllBlank(runs, p, k)
    ensures After(runs, p) == After(runs, k)
    decreases k - p
  {
    if p < k {
      AfterBlank(runs, p + 1, k);
    }
  }

  function TextBetween(runs: seq<Run>, p: nat, k: nat): string
    requires p <= k <= |runs|
  {
    if p == k then "" else TextBetween(runs, p, k - 1) + runs[k - 1].text
  }

  /** Blank runs show as one stretch under one annotation. */
  lemma {:induction false} BlankStretch(runs: seq<Run>, p: nat, k: nat)
    requires p <= k <= |runs| && AllBlank(runs, p, k)
    ensures Items(runs, p) == Lead(TextBetween(runs, p, k), Bridge(Before(runs, p), After(runs, k)), Items(runs, k))
  {
    if p < k {
      var a, m := Bridge(Before(runs, p), After(runs, k)), k - 1;
      BlankStretch(runs, p, m);
      BeforeBlank(runs, p, m);
      AfterBlank(runs, m, k);
      LeadJoin(TextBetween(runs, p, m), runs[m].text, a, Items(runs, k));
    }
  }

  lemma {:induction false} LeadJoin(s: string, t: string, a: Annotation, rest: seq<Item>)
    ensures Lead(s, a, Lead(t, a, rest)) == Lead(s + t, a, rest)
  {
    if s == "" {
      assert s + t == t;
    } else {
      LeadJoin(s[1..], t, a, rest);
      assert (s + t)[1..] == s[1..] + t;
    }
  }

  /** Two runs with the same tags and only blank text between them show as one
      stretch under one annotation. */
  lemma {:induction false} OneStretch(runs: seq<Run>, i: nat, j: nat)
    requires i < j < |runs| && AllBlank(runs, i + 1, j)
    requires !Blank(runs[i].text) && !Blank(runs[j].text)
    requires runs[i].annotation == runs[j].annotation && Tagged(runs[i].annotation)
    ensures Items(runs, i) ==
            Lead(runs[i].text + TextBetween(runs, i + 1, j) + runs[j].text, runs[i].annotation, Items(runs, j + 1))
  {
    var a, middle := runs[i].annotation, TextBetween(runs, i + 1, j);
    BlankStretch(runs, i + 1, j);
    assert Before(runs, i + 1) == Content(a) == After(runs, j);
    LeadJoin(middle, runs[j].text, a, Items(runs, j + 1));
    LeadJoin(runs[i].text, middle + runs[j].text, a, Items(runs, j + 1));
    assert runs[i].text + (middle + runs[j].text) == runs[i].text + middle + runs[j].text;
  }
}
