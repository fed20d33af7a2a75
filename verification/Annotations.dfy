/** Visibility annotations, and the markup that shows them. */
module Annotations {
  datatype Kind = Unmarked | Concealed | ClientDependent | Unknown | Stripped

  datatype Annotation = Annotation(kind: Kind, reason: string, value: string)

  const NONE := Annotation(Unmarked, "", "")

  /** The annotation is shown as a pair of tags. */
  predicate Tagged(a: Annotation) {
    a.kind.Concealed? || a.kind.ClientDependent? || a.kind.Unknown?
  }

  /** What a reader is shown: a character under an annotation, or the sign that
      hidden content was left out. */
  datatype Item = Shown(c: char, annotation: Annotation) | Omission

  predicate Showable(items: seq<Item>) {
    forall i :: 0 <= i < |items| && items[i].Shown? ==> items[i].annotation == NONE || Tagged(items[i].annotation)
  }

  datatype Token = Open(annotation: Annotation) | Close(kind: Kind) | Omitted | Character(c: char)

  function OpenTag(a: Annotation): string {
    match a.kind
    case Concealed =>
      "<invisible reason=\"" + a.reason + "\"" + (if a.value != "" then " value=\"" + a.value + "\"" else "") + ">"
    case ClientDependent => "<visibility-varies-by-viewport-size>"
    case Unknown => "<visibility-uncertain>"
    case Stripped => "<hidden-content-stripped/>"
    case Unmarked => ""
  }

  function CloseTag(kind: Kind): string {
    match kind
    case Concealed => "</invisible>"
    case ClientDependent => "</visibility-varies-by-viewport-size>"
    case Unknown => "</visibility-uncertain>"
    case _ => ""
  }

  /* What the tags tell. */

  lemma {:induction false} QuoteSplits(x: string, y: string, u: string, v: string)
    requires '"' !in x && '"' !in u && x + ("\"" + y) == u + ("\"" + v)
    ensures x == u && y == v
  {
    var all, same := x + ("\"" + y), u + ("\"" + v);
    assert all[|x|] == '"' && same[|u|] == '"';
    assert all[..|x|] == x && same[..|u|] == u && all[|x| + 1..] == y && same[|u| + 1..] == v;
  }

  /** A concealing tag after its fixed beginning. */
  function ReasonOn(a: Annotation): string {
    a.reason + ("\"" + ValueOn(a))
  }

  function ValueOn(a: Annotation): string {
    if a.value == "" then ">" else " value=\"" + (a.value + ("\"" + ">"))
  }

  lemma {:induction false} ConcealingTag(a: Annotation)
    requires a.kind.Concealed?
    ensures OpenTag(a) == "<invisible reason=\"" + ReasonOn(a)
  {
    assert "<invisible reason=\"" + a.reason + "\"" + ">" == "<invisible reason=\"" + (a.reason + ("\"" + ">"));
    assert a.value != "" ==>
        "<invisible reason=\"" + a.reason + "\"" + (" value=\"" + a.value + "\"") + ">" ==
        "<invisible reason=\"" + (a.reason + ("\"" + (" value=\"" + (a.value + ("\"" + ">")))));
  }

  lemma {:induction false} SameAttributes(a: Annotation, b: Annotation)
    requires '"' !in a.reason && '"' !in a.value && '"' !in b.reason && '"' !in b.value && ReasonOn(a) == ReasonOn(b)
    ensures a.reason == b.reason && a.value == b.value
  {
    QuoteSplits(a.reason, ValueOn(a), b.reason, ValueOn(b));
    ValueFirst(a);
    ValueFirst(b);
    if a.value != "" && b.value != "" {
      var prefix := " value=\"";
      assert ValueOn(a)[|prefix|..] == a.value + ("\"" + ">") && ValueOn(b)[|prefix|..] == b.value + ("\"" + ">");
      QuoteSplits(a.value, ">", b.value, ">");
    }
  }

  lemma {:induction false} ValueFirst(a: Annotation)
    ensures ValueOn(a) != "" && ValueOn(a)[0] == if a.value == "" then '>' else ' '
  {
  }

  /** An opening tag tells its annotation: the kind, and the reason and value of what
      is concealed. */
  lemma {:induction false} TagTells(a: Annotation, b: Annotation)
    requires Tagged(a) && Tagged(b) && OpenTag(a) == OpenTag(b)
    requires '"' !in a.reason && '"' !in a.value && '"' !in b.reason && '"' !in b.value
    ensures a.kind == b.kind && (a.kind.Concealed? ==> a == b)
  {
    FirstLetters(a);
    FirstLetters(b);
    if a.kind.Concealed? && b.kind.Concealed? {
      var prefix := "<invisible reason=\"";
      ConcealingTag(a);
      ConcealingTag(b);
      assert OpenTag(a)[|prefix|..] == ReasonOn(a) && OpenTag(b)[|prefix|..] == ReasonOn(b);
      SameAttributes(a, b);
    }
  }

  lemma {:induction false} FirstLetters(a: Annotation)
    requires Tagged(a)
    ensures |OpenTag(a)| > 12 && (a.kind.Concealed? <==> OpenTag(a)[1] == 'i')
    ensures a.kind.Unknown? ==> OpenTag(a)[12] == 'u'
    ensures a.kind.ClientDependent? ==> OpenTag(a)[12] == 'v'
  {
    if a.kind.Concealed? {
      ConcealingTag(a);
    }
  }

  function ElementName(kind: Kind): string {
    match kind
    case Concealed => "invisible"
    case ClientDependent => "visibility-varies-by-viewport-size"
    case Unknown => "visibility-uncertain"
    case Stripped => "hidden-content-stripped"
    case Unmarked => ""
  }

  /** A closing tag closes the element that the opening tags of its kind open. */
  lemma {:induction false} TagsPair(a: Annotation)
    requires Tagged(a)
    ensures CloseTag(a.kind) == "</" + ElementName(a.kind) + ">" && "<" + ElementName(a.kind) <= OpenTag(a)
  {
    match a.kind
    case Concealed =>
      ConcealingTag(a);
      assert "<invisible reason=\""[..10] == "<" + "invisible";
      assert OpenTag(a)[..10] == "<invisible reason=\""[..10];
    case ClientDependent =>
      VaryingOpens(a);
      VaryingCloses();
    case Unknown => UncertainPair();
  }

  lemma {:induction false} VaryingOpens(a: Annotation)
    requires a.kind.ClientDependent?
    ensures OpenTag(a) == "<" + ElementName(ClientDependent) + ">"
  {
  }

  lemma {:induction false} VaryingCloses()
    ensures CloseTag(ClientDependent) == "</" + ElementName(ClientDependent) + ">"
  {
  }

  lemma {:induction false} UncertainPair()
    ensures CloseTag(Unknown) == "</" + ElementName(Unknown) + ">"
    ensures forall a: Annotation :: a.kind.Unknown? ==> OpenTag(a) == "<" + ElementName(Unknown) + ">"
  {
  }

  const OMISSION := Annotation(Stripped, "", "")

  /** How tags are spelled. */
  datatype Tags = Tags(open: Annotation -> string, close: Kind -> string)

  const PROMPT_TAGS := Tags((a: Annotation) => OpenTag(a), (kind: Kind) => CloseTag(kind))

  function Spelling(t: Token, tags: Tags): string {
    match t
    case Open(a) => tags.open(a)
    case Close(kind) => tags.close(kind)
    case Omitted => tags.open(OMISSION)
    case Character(c) => [c]
  }

  function Spelled(tokens: seq<Token>, tags: Tags): string {
    if tokens == [] then "" else Spelling(tokens[0], tags) + Spelled(tokens[1..], tags)
  }

  /** The tags between a character under one annotation and one under another. */
  function Change(active: Annotation, a: Annotation): seq<Token> {
    if a == active then []
    else (if active == NONE then [] else [Close(active.kind)]) + if a == NONE then [] else [Open(a)]
  }

  /** The markup of a list of items: tags only where the annotation changes. */
  function Markup(items: seq<Item>, active: Annotation): seq<Token> {
    if items == [] then Change(active, NONE)
    else match items[0]
      case Omission => Change(active, NONE) + ([Omitted] + Markup(items[1..], NONE))
      case Shown(c, a) => Change(active, a) + ([Character(c)] + Markup(items[1..], a))
  }

  /** Tags come in pairs, never one inside another, and an omission stands
      outside every pair. */
  predicate Balanced(tokens: seq<Token>, active: Annotation) {
    if tokens == [] then active == NONE
    else match tokens[0]
      case Open(a) => active == NONE && Tagged(a) && Balanced(tokens[1..], a)
      case Close(kind) => active != NONE && active.kind == kind && Balanced(tokens[1..], NONE)
      case Omitted => active == NONE && Balanced(tokens[1..], NONE)
      case Character(_) => Balanced(tokens[1..], active)
  }

  /** What a reader makes of the markup. */
  function ReadBack(tokens: seq<Token>, active: Annotation): seq<Item> {
    if tokens == [] then []
    else match tokens[0]
      case Open(a) => ReadBack(tokens[1..], a)
      case Close(_) => ReadBack(tokens[1..], NONE)
      case Omitted => [Omission] + ReadBack(tokens[1..], active)
      case Character(c) => [Shown(c, active)] + ReadBack(tokens[1..], active)
  }

  lemma {:induction false} Changed(active: Annotation, a: Annotation, rest: seq<Token>)
    requires active == NONE || Tagged(active)
    requires a == NONE || Tagged(a)
    requires Balanced(rest, a)
    ensures Balanced(Change(active, a) + rest, active)
    ensures ReadBack(Change(active, a) + rest, active) == ReadBack(rest, a)
  {
    var all := Change(active, a) + rest;
    if a == active {
      assert all == rest;
    } else if active == NONE {
      assert all[0] == Open(a) && all[1..] == rest;
    } else {
      var inner := (if a == NONE then [] else [Open(a)]) + rest;
      assert all[0] == Close(active.kind) && all[1..] == inner;
      assert if a == NONE then inner == rest else inner[0] == Open(a) && inner[1..] == rest;
    }
  }

  lemma {:induction false} ReadsFirst(t: Token, tokens: seq<Token>, active: Annotation)
    requires t.Character? || (t.Omitted? && active == NONE)
    requires Balanced(tokens, active)
    ensures Balanced([t] + tokens, active)
    ensures ReadBack([t] + tokens, active) ==
            [if t.Omitted? then Omission else Shown(t.c, active)] + ReadBack(tokens, active)
  {
    assert ([t] + tokens)[1..] == tokens;
  }

  /** The markup is balanced and a reader gets back exactly the items. */
  lemma {:induction false} MarkupReadsBack(items: seq<Item>, active: Annotation)
    requires Showable(items) && (active == NONE || Tagged(active))
    ensures Balanced(Markup(items, active), active) && ReadBack(Markup(items, active), active) == items
  {
    if items == [] {
      Changed(active, NONE, []);
      assert Change(active, NONE) + [] == Change(active, NONE);
    } else {
      var a := if items[0].Omission? then NONE else items[0].annotation;
      var t := if items[0].Omission? then Omitted else Character(items[0].c);
      MarkupReadsBack(items[1..], a);
      ReadsFirst(t, Markup(items[1..], a), a);
      Changed(active, a, [t] + Markup(items[1..], a));
    }
  }

  lemma {:induction false} OneTagApart(items: seq<Item>, a: Annotation)
    ensures |Markup(items, a)| <= |Markup(items, NONE)| + 1
    ensures |Markup(items, NONE)| <= |Markup(items, a)| + 1
  {
  }

  /** No balanced markup with the same reading has fewer tags: equal annotations
      that follow each other share one pair. */
  lemma {:induction false} MarkupIsShortest(tokens: seq<Token>, active: Annotation)
    requires Balanced(tokens, active)
    ensures |Markup(ReadBack(tokens, active), active)| <= |tokens|
  {
    if tokens != [] {
      var rest := tokens[1..];
      match tokens[0] {
        case Open(a) =>
          MarkupIsShortest(rest, a);
          OneTagApart(ReadBack(rest, a), a);
        case Close(_) =>
          MarkupIsShortest(rest, NONE);
          OneTagApart(ReadBack(rest, NONE), active);
        case Omitted =>
          MarkupIsShortest(rest, NONE);
          assert ReadBack(tokens, active)[1..] == ReadBack(rest, NONE);
        case Character(_) =>
          MarkupIsShortest(rest, active);
          assert ReadBack(tokens, active)[1..] == ReadBack(rest, active);
      }
    }
  }
}
