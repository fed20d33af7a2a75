/** Conditional-comment text as tokens: spaces separate, letters and digits run
    as far as they go, and letters count without their case. */
module MsoText {
  import opened Optional
  import opened MsoConditions

  const MAX_NUMBER := 0x7fff_ffff

  predicate IsSpace(c: char) {
    c == ' ' || c == '\t' || c == '\r' || c == '\n' || c == '\U{000C}'
  }

  predicate IsLetter(c: char) {
    'A' <= c <= 'Z' || 'a' <= c <= 'z'
  }

  predicate IsDigit(c: char) {
    '0' <= c <= '9'
  }

  datatype Class = Space | Letter | Digit | Sign

  function ClassOf(c: char): Class {
    if IsSpace(c) then Space else if IsLetter(c) then Letter else if IsDigit(c) then Digit else Sign
  }

  /** Where the run of characters of a class that starts at `i` ends. */
  function RunEnd(text: string, i: nat, class_: Class): (j: nat)
    requires i <= |text|
    ensures i <= j <= |text| && (j < |text| ==> ClassOf(text[j]) != class_)
    ensures i < |text| && ClassOf(text[i]) == class_ ==> i < j
    ensures forall k :: i <= k < j ==> ClassOf(text[k]) == class_
    decreases |text| - i
  {
    if i < |text| && ClassOf(text[i]) == class_ then RunEnd(text, i + 1, class_) else i
  }

  function Lower(c: char): char {
    if 'A' <= c <= 'Z' then (c as int + 32) as char else c
  }

  function LowerAll(word: string): string {
    if word == "" then "" else [Lower(word[0])] + LowerAll(word[1..])
  }

  function KeywordOf(word: string): Keyword {
    var w := LowerAll(word);
    if w == "true" then TrueWord
    else if w == "false" then FalseWord
    else if w == "ie" then IEWord
    else if w == "mso" then MsoWord
    else if w == "lt" then Compare(Lt)
    else if w == "lte" then Compare(Lte)
    else if w == "gt" then Compare(Gt)
    else if w == "gte" then Compare(Gte)
    else OtherWord
  }

  function DigitValue(c: char): nat
    requires ClassOf(c) == Digit
  {
    c as int - '0' as int
  }

  /** The value of the digits from `i` to `j`. */
  function Numeral(text: string, i: nat, j: nat): nat
    requires i <= j <= |text| && forall k :: i <= k < j ==> ClassOf(text[k]) == Digit
  {
    if i == j then 0 else Numeral(text, i, j - 1) * 10 + DigitValue(text[j - 1])
  }

  function Bounded(n: nat): Option<nat> {
    if n <= MAX_NUMBER then Some(n) else None
  }

  function SignOf(c: char): Token {
    match c
    case '!' => Bang
    case '&' => Ampersand
    case '|' => Bar
    case '(' => LeftParen
    case ')' => RightParen
    case _ => Other
  }

  /** A word, a number or a sign that starts at `j`. */
  function EndOfToken(text: string, j: nat): (k: nat)
    requires j < |text|
    ensures j < k <= |text|
  {
    if ClassOf(text[j]) == Letter then RunEnd(text, j, Letter)
    else if ClassOf(text[j]) == Digit then RunEnd(text, j, Digit)
    else j + 1
  }

  function TokenAt(text: string, j: nat): Token
    requires j < |text|
  {
    if ClassOf(text[j]) == Letter then Word(KeywordOf(text[j..RunEnd(text, j, Letter)]))
    else if ClassOf(text[j]) == Digit then Number(Bounded(Numeral(text, j, RunEnd(text, j, Digit))))
    else SignOf(text[j])
  }

  /** The tokens of the text from `i` on. */
  function TokensFrom(text: string, i: nat): seq<Token>
    requires i <= |text|
    decreases |text| - i
  {
    var j := RunEnd(text, i, Space);
    if j == |text| then []
    else
      var k := EndOfToken(text, j);
      [TokenAt(text, j)] + TokensFrom(text, k)
  }

  /** Spaces say nothing. */
  lemma {:induction false} SpacesSkipped(text: string, i: nat)
    requires i <= |text|
    ensures RunEnd(text, RunEnd(text, i, Space), Space) == RunEnd(text, i, Space)
    ensures TokensFrom(text, i) == TokensFrom(text, RunEnd(text, i, Space))
  {
  }

  /** Digits beyond the largest number never come back below it. */
  lemma {:induction false} NumeralGrows(text: string, i: nat, j: nat, k: nat)
    requires i <= j <= k <= |text| && forall m :: i <= m < k ==> ClassOf(text[m]) == Digit
    ensures Numeral(text, i, j) <= Numeral(text, i, k)
  {
    if j < k {
      NumeralGrows(text, i, j, k - 1);
    }
  }

  /** Read digits until they end or the number is too large. */
  method ScanNumber(text: string, start: nat) returns (value: nat, end: nat, fits: bool)
    requires start <= |text|
    ensures start <= end <= RunEnd(text, start, Digit)
    ensures fits <==> Numeral(text, start, RunEnd(text, start, Digit)) <= MAX_NUMBER
    ensures fits ==> end == RunEnd(text, start, Digit) && value == Numeral(text, start, end)
  {
    value, end := 0, start;
    while end < |text| && IsDigit(text[end])
      invariant start <= end <= |text| && RunEnd(text, end, Digit) == RunEnd(text, start, Digit)
      invariant (forall k :: start <= k < end ==> ClassOf(text[k]) == Digit) &&
                value == Numeral(text, start, end) <= MAX_NUMBER
    {
      var digit := DigitValue(text[end]);
      NumeralGrows(text, start, end + 1, RunEnd(text, start, Digit));
      if value > (MAX_NUMBER - digit) / 10 {
        return 0, end, false;
      }
      value := value * 10 + digit;
      end := end + 1;
    }
    return value, end, true;
  }
}
