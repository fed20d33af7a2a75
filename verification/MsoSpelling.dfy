/** Writing conditions down: any list of tokens, spelled out with spaces between,
    is read back as that list. */
module MsoSpelling {
  import opened Optional
  import opened MsoConditions
  import opened MsoText
  import MsoParser

  /** A token that a text can hold. */
  predicate Writable(t: Token) {
    match t
    case Number(value) => value.Some? && value.value <= 0x7fff_ffff
    case Word(keyword) => keyword != OtherWord && keyword != Compare(Eq)
    case Other => false
    case _ => true
  }

  function Digits(n: nat): string {
    if n < 10 then [('0' as int + n) as char] else Digits(n / 10) + [('0' as int + n % 10) as char]
  }

  function WordText(keyword: Keyword): string {
    match keyword
    case TrueWord => "true"
    case FalseWord => "false"
    case IEWord => "IE"
    case MsoWord => "mso"
    case Compare(Lt) => "lt"
    case Compare(Lte) => "lte"
    case Compare(Gt) => "gt"
    case Compare(Gte) => "gte"
    case Compare(Eq) => ""
    case OtherWord => ""
  }

  function Spelled(t: Token): string {
    match t
    case Bang => "!"
    case Ampersand => "&"
    case Bar => "|"
    case LeftParen => "("
    case RightParen => ")"
    case Word(keyword) => WordText(keyword)
    case Number(value) => if value.Some? then Digits(value.value) else ""
    case Other => "?"
  }

  function TextOf(ts: seq<Token>): string {
    if ts == [] then "" else Spelled(ts[0]) + (" " + TextOf(ts[1..]))
  }

  /** A text holds `part` from `i` on, and then a space. */
  predicate SetOff(text: string, i: nat, part: string) {
    i + |part| < |text| && text[i..i + |part|] == part && text[i + |part|] == ' '
  }

  predicate AllOf(part: string, class_: Class) {
    forall k :: 0 <= k < |part| ==> ClassOf(part[k]) == class_
  }

  lemma {:induction false} RunIs(text: string, i: nat, part: string, class_: Class)
    requires SetOff(text, i, part) && AllOf(part, class_) && class_ != Space
    ensures RunEnd(text, i, class_) == i + |part|
    decreases |part|
  {
    if part != "" {
      assert text[i] == text[i..i + |part|][0] == part[0];
      assert text[i + 1..i + 1 + |part[1..]|] == text[i..i + |part|][1..] == part[1..];
      RunIs(text, i + 1, part[1..], class_);
    }
  }

  /** The digits of a number have its value. */
  lemma {:induction false} DigitsRead(text: string, i: nat, n: nat)
    requires i + |Digits(n)| <= |text| && text[i..i + |Digits(n)|] == Digits(n)
    ensures AllOf(Digits(n), Digit) && Digits(n) != ""
    ensures forall k :: i <= k < i + |Digits(n)| ==> ClassOf(text[k]) == Digit
    ensures Numeral(text, i, i + |Digits(n)|) == n
    decreases n
  {
    var part := Digits(n);
    var last := |part| - 1;
    assert text[i + last] == text[i..i + |part|][last] == part[last];
    if n >= 10 {
      assert part[..last] == Digits(n / 10);
      assert text[i..i + last] == text[i..i + |part|][..last];
      DigitsRead(text, i, n / 10);
    } else {
      assert Numeral(text, i, i) == 0;
    }
  }

  lemma {:induction false} WordLetters(keyword: Keyword)
    requires Writable(Word(keyword))
    ensures AllOf(WordText(keyword), Letter) && WordText(keyword) != ""
  {
  }

  /** Letters count without their case. */
  lemma {:induction false} WordLower(keyword: Keyword)
    ensures LowerAll(WordText(keyword)) == if keyword == IEWord then "ie" else WordText(keyword)
  {
    match keyword
    case TrueWord => assert LowerAll("true") == "true";
    case FalseWord => assert LowerAll("false") == "false";
    case IEWord => assert LowerAll("IE") == "ie";
    case MsoWord => assert LowerAll("mso") == "mso";
    case Compare(op) => CompareLower(op);
    case OtherWord =>
  }

  lemma {:induction false} CompareLower(op: Comparison)
    ensures LowerAll(WordText(Compare(op))) == WordText(Compare(op))
  {
    match op
    case Lt => assert LowerAll("lt") == "lt";
    case Lte => assert LowerAll("lte") == "lte";
    case Gt => assert LowerAll("gt") == "gt";
    case Gte => assert LowerAll("gte") == "gte";
    case Eq =>
  }

  lemma {:induction false} WordRead(keyword: Keyword)
    requires Writable(Word(keyword))
    ensures KeywordOf(WordText(keyword)) == keyword
  {
    WordLower(keyword);
    WordsApart(WordText(keyword), keyword);
  }

  lemma {:induction false} WordsApart(word: string, keyword: Keyword)
    requires Writable(Word(keyword)) && LowerAll(word) == if keyword == IEWord then "ie" else WordText(keyword)
    ensures KeywordOf(word) == keyword
  {
  }

  lemma {:induction false} FirstChar(text: string, i: nat, part: string)
    requires SetOff(text, i, part) && part != ""
    ensures text[i] == part[0]
  {
    assert text[i] == text[i..i + |part|][0];
  }

  /** One token, set off, is read as itself. */
  lemma {:induction false} TokenRead(text: string, i: nat, t: Token)
    requires Writable(t) && SetOff(text, i, Spelled(t))
    ensures ClassOf(text[i]) != Space && TokenAt(text, i) == t && EndOfToken(text, i) == i + |Spelled(t)|
  {
    if t.Word? {
      WordLetters(t.keyword);
      WordRead(t.keyword);
      RunIs(text, i, Spelled(t), Letter);
      FirstChar(text, i, Spelled(t));
    } else if t.Number? {
      NumberRead(text, i, t.value.value);
    } else {
      FirstChar(text, i, Spelled(t));
    }
  }

  lemma {:induction false} NumberRead(text: string, i: nat, n: nat)
    requires n <= MAX_NUMBER && SetOff(text, i, Digits(n))
    ensures ClassOf(text[i]) == Digit && EndOfToken(text, i) == i + |Digits(n)| && TokenAt(text, i) == Number(Some(n))
  {
    DigitsRead(text, i, n);
    RunIs(text, i, Digits(n), Digit);
    FirstChar(text, i, Digits(n));
  }

  lemma {:induction false} SpacePassed(text: string, k: nat)
    requires k < |text| && text[k] == ' '
    ensures TokensFrom(text, k) == TokensFrom(text, k + 1)
  {
    SpacesSkipped(text, k);
    SpacesSkipped(text, k + 1);
  }

  lemma {:induction false} NextRead(text: string, i: nat, k: nat, t: Token)
    requires i < k < |text| && ClassOf(text[i]) != Space && TokenAt(text, i) == t && EndOfToken(text, i) == k
    requires text[k] == ' '
    ensures TokensFrom(text, i) == [t] + TokensFrom(text, k + 1)
  {
    assert RunEnd(text, i, Space) == i;
    SpacePassed(text, k);
  }

  lemma {:induction false} Apart(before: string, part: string, rest: string)
    ensures var text := before + (part + (" " + rest));
            text == before + part + " " + rest && SetOff(text, |before|, part)
  {
  }

  lemma {:induction false} ReadFrom(before: string, ts: seq<Token>)
    requires forall t :: t in ts ==> Writable(t)
    ensures TokensFrom(before + TextOf(ts), |before|) == ts
    decreases ts
  {
    if ts != [] {
      ReadFrom(before + Spelled(ts[0]) + " ", ts[1..]);
      ReadOne(before, ts[0], TextOf(ts[1..]), ts[1..]);
      assert ts == [ts[0]] + ts[1..];
    }
  }

  lemma {:induction false} ReadOne(before: string, t: Token, rest: string, more: seq<Token>)
    requires Writable(t)
    requires TokensFrom(before + Spelled(t) + " " + rest, |before + Spelled(t) + " "|) == more
    ensures TokensFrom(before + (Spelled(t) + (" " + rest)), |before|) == [t] + more
  {
    var text, part, i := before + (Spelled(t) + (" " + rest)), Spelled(t), |before|;
    Apart(before, part, rest);
    TokenRead(text, i, t);
    NextRead(text, i, i + |part|, t);
  }

  /** Any tokens a text can hold are read back from their spelling. */
  lemma {:induction false} ReadsBack(ts: seq<Token>)
    requires forall t :: t in ts ==> Writable(t)
    ensures TokensFrom(TextOf(ts), 0) == ts
  {
    assert "" + TextOf(ts) == TextOf(ts);
    ReadFrom("", ts);
  }

  /** No version in the condition is too large to be read. */
  predicate VersionsFit(e: Condition) {
    match e
    case Version(_, n) => n <= 0x7fff_ffff
    case Negation(x) => VersionsFit(x)
    case Both(l, r) => VersionsFit(l) && VersionsFit(r)
    case Either(l, r) => VersionsFit(l) && VersionsFit(r)
    case Group(x) => VersionsFit(x)
    case _ => true
  }

  lemma {:induction false} PrintedWritable(e: Condition)
    requires VersionsFit(e)
    ensures forall t :: t in Printed(e) ==> Writable(t)
  {
    match e
    case Negation(x) => PrintedWritable(x);
    case Both(l, r) =>
      PrintedWritable(l);
      PrintedWritable(r);
    case Either(l, r) =>
      PrintedWritable(l);
      PrintedWritable(r);
    case Group(x) => PrintedWritable(x);
    case _ =>
  }

  /** A condition that is written down is read as that condition. */
  lemma {:induction false} ConditionReadsBack(e: Condition)
    requires Shaped(e) && Depth(e) <= MAX_DEPTH && VersionsFit(e)
    ensures MsoParser.ReadsAs(TextOf(Printed(e)), e)
  {
    PrintedWritable(e);
    ReadsBack(Printed(e));
  }
}
